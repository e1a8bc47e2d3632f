/** The in-flight Redis scripts, any number of gateways running them on one key,
    and the proof that they implement Semaphore. */
module Inflight {
  import opened Redis
  import S = Semaphore

  // ---- the two scripts ----

  function AcquireScript(k: ZSet, now: nat, maxInflight: nat, expiry: nat, token: string, lease: nat): (ZSet, int) {
    var key := Access(k, now);
    var live := RemRangeByScore(key.entries, now);
    if |live| >= maxInflight then (key.(entries := live), -1)
    else (ZSet(Add(live, Entry(expiry, token)), now + lease), |live| + 1)
  }

  function ReleaseScript(k: ZSet, now: nat): (ZSet, nat) {
    var key := Access(k, now);
    var live := RemRangeByScore(key.entries, now);
    var left := if live == [] then [] else live[1..];
    if left == [] then (ABSENT, 0) else (key.(entries := left), |left|)
  }

  // ---- one script at a time ----

  /** What every run keeps of the key: scores ascend, none lies beyond one lease
      from now, and the key's own expiry is no earlier than its last lease and no
      later than one lease from now. */
  ghost predicate WellFormed(k: ZSet, now: nat, lease: nat) {
    && Ascending(Scores(k.entries))
    && AllAtMost(Scores(k.entries), now + lease)
    && AllAtMost(Scores(k.entries), k.expireAt)
    && k.expireAt <= now + lease
  }

  /** The expiries of the leases that still run at `now`. */
  function Live(k: ZSet, now: nat): seq<nat> {
    After(Scores(k.entries), now)
  }

  /** The key-level expiry never removes a lease that the purge would keep. */
  lemma PurgeSeesEveryLiveLease(k: ZSet, now: nat)
    requires AllAtMost(Scores(k.entries), k.expireAt)
    ensures Scores(RemRangeByScore(Access(k, now).entries, now)) == Live(k, now)
    ensures forall m :: HasMember(RemRangeByScore(Access(k, now).entries, now), m) ==> HasMember(k.entries, m)
  {
    hide RemRangeByScore, After, HasMember;
    var key := Access(k, now);
    PurgeScores(key.entries, now);
    if k.expireAt < now { AfterOfEarlier(Scores(k.entries), now); AfterOfLater([], now); }
    forall m | HasMember(RemRangeByScore(key.entries, now), m) ensures HasMember(k.entries, m) {
      PurgeMembers(key.entries, now, m);
      NoMembers(m);
    }
  }

  lemma AcquireEffect(k: ZSet, now: nat, maxInflight: nat, token: string, lease: nat)
    requires WellFormed(k, now, lease) && 1 <= lease
    requires !HasMember(k.entries, token)
    ensures var (k', r) := AcquireScript(k, now, maxInflight, now + lease, token, lease);
            && WellFormed(k', now, lease)
            && (r < 0 <==> |Live(k, now)| >= maxInflight)
            && Scores(k'.entries) == (if r < 0 then Live(k, now) else Live(k, now) + [now + lease])
            && (r >= 0 ==> r == |Scores(k'.entries)|)
            && (forall m :: HasMember(k'.entries, m) ==> HasMember(k.entries, m) || m == token)
  {
    hide RemRangeByScore, After, HasMember, Add;
    var live := RemRangeByScore(Access(k, now).entries, now);
    PurgeSeesEveryLiveLease(k, now);
    AfterIsSuffix(Scores(k.entries), now);
    assert Ascending(Scores(live)) && AllAtMost(Scores(live), now + lease);
    AddLatest(live, Entry(now + lease, token));
    if |live| >= maxInflight && live != [] {
      assert now < Scores(k.entries)[|k.entries| - 1] <= k.expireAt;
    }
  }

  lemma ReleaseEffect(k: ZSet, now: nat, lease: nat)
    requires WellFormed(k, now, lease)
    ensures var (k', r) := ReleaseScript(k, now);
            && WellFormed(k', now, lease)
            && Scores(k'.entries) == S.Tail(Live(k, now))
            && r == |Scores(k'.entries)|
            && (forall m :: HasMember(k'.entries, m) ==> HasMember(k.entries, m))
  {
    hide RemRangeByScore, After, HasMember;
    var live := RemRangeByScore(Access(k, now).entries, now);
    PurgeSeesEveryLiveLease(k, now);
    AfterIsSuffix(Scores(k.entries), now);
    if live != [] {
      assert now < Scores(k.entries)[|k.entries| - 1] <= k.expireAt;
      assert Scores(live[1..]) == Scores(live)[1..];
      TailMembers(live);
    }
    forall m ensures !HasMember([], m) { NoMembers(m); }
  }

  lemma TailMembers(s: seq<Entry>)
    requires s != []
    ensures forall m :: HasMember(s[1..], m) ==> HasMember(s, m)
  {
    forall m | HasMember(s[1..], m) ensures HasMember(s, m) {
      var i :| 0 <= i < |s[1..]| && s[1..][i].member == m;
      assert s[i + 1].member == m;
    }
  }

  // ---- runs by any number of gateways ----

  /** A request that acquired and has not settled, with its own lease's expiry. */
  datatype Holder = Holder(gateway: string, expiry: nat)

  datatype System = System(key: ZSet, holders: seq<Holder>, serials: map<string, nat>, clock: nat)

  const START := System(ABSENT, [], map[], 0)

  function Step(p: S.Params, s: System, e: S.Event): System {
    match e
    case Acquire(gw, at) =>
      var serial := Serial(s.serials, gw) + 1;
      var (key, r) := AcquireScript(s.key, at, p.maxInflight, at + p.lease, MemberName(gw, at, serial), p.lease);
      System(key, if r < 0 then s.holders else s.holders + [Holder(gw, at + p.lease)], s.serials[gw := serial], at)
    case Settle(h, at) =>
      System(ReleaseScript(s.key, at).0, S.Without(s.holders, h), s.serials, at)
  }

  function Run(p: S.Params, es: seq<S.Event>): System {
    if es == [] then START else Step(p, Run(p, es[..|es| - 1]), es[|es| - 1])
  }

  function Expiries(hs: seq<Holder>): (r: seq<nat>)
    ensures |r| == |hs| && forall i :: 0 <= i < |hs| ==> r[i] == hs[i].expiry
  {
    seq(|hs|, i requires 0 <= i < |hs| => hs[i].expiry)
  }

  /** The expiries-only view of a system. */
  function View(s: System): S.State {
    S.State(Scores(s.key.entries), Expiries(s.holders), s.clock)
  }

  lemma AcquireRefines(p: S.Params, s: System, e: S.Event)
    requires S.Sensible(p) && WellFormed(s.key, e.at, p.lease) && NamesUnissued(s.key.entries, s.serials)
    requires e.Acquire? && ':' !in e.gateway
    ensures View(Step(p, s, e)) == S.Step(p, View(s), e)
    ensures WellFormed(Step(p, s, e).key, e.at, p.lease) && NamesUnissued(Step(p, s, e).key.entries, Step(p, s, e).serials) && Step(p, s, e).clock == e.at
  {
    hide MemberName, AcquireScript, WellFormed, After, HasMember, NamesUnissued, Unissued;
    NextIsFresh(s.key.entries, s.serials, e.gateway, e.at);
    var gw, at := e.gateway, e.at;
    var serial := Serial(s.serials, gw) + 1;
    var token := MemberName(gw, at, serial);
    AcquireEffect(s.key, at, p.maxInflight, token, p.lease);
    var s' := Step(p, s, e);
    IssueOne(s.key.entries, s'.key.entries, s.serials, gw, at);
    assert Expiries(s.holders + [Holder(gw, at + p.lease)]) == Expiries(s.holders) + [at + p.lease];
  }

  lemma SettleRefines(p: S.Params, s: System, e: S.Event)
    requires WellFormed(s.key, e.at, p.lease) && NamesUnissued(s.key.entries, s.serials) && e.Settle?
    ensures View(Step(p, s, e)) == S.Step(p, View(s), e)
    ensures WellFormed(Step(p, s, e).key, e.at, p.lease) && NamesUnissued(Step(p, s, e).key.entries, Step(p, s, e).serials) && Step(p, s, e).clock == e.at
  {
    hide ReleaseScript, WellFormed, After, HasMember, MemberName;
    ReleaseEffect(s.key, e.at, p.lease);
    IssueNone(s.key.entries, Step(p, s, e).key.entries, s.serials);
    assert Expiries(S.Without(s.holders, e.holder)) == S.Without(Expiries(s.holders), e.holder);
  }

  /** Every possible run of the scripts, by any number of gateways, is a run of
      Semaphore: unique member names, the purge and the key-level expiry make the
      sorted set behave as a plain sequence of expiries. */
  lemma {:induction false} RunRefines(p: S.Params, es: seq<S.Event>)
    requires S.Sensible(p) && S.Always(p, es, S.Possible)
    ensures View(Run(p, es)) == S.Run(p, es)
    ensures WellFormed(Run(p, es).key, Run(p, es).clock, p.lease) && NamesUnissued(Run(p, es).key.entries, Run(p, es).serials)
  {
    hide Step, S.Step, S.Always, NamesUnissued;
    if es != [] {
      var s, e := Run(p, es[..|es| - 1]), es[|es| - 1];
      S.AlwaysPrefix(p, es, S.Possible);
      RunRefines(p, es[..|es| - 1]);
      assert WellFormed(s.key, e.at, p.lease);
      if e.Acquire? { AcquireRefines(p, s, e); } else { SettleRefines(p, s, e); }
    } else {
      NoneIssued();
    }
  }

  // ---- the results ----

  lemma PossibleRun(p: S.Params, es: seq<S.Event>, ok: (S.State, S.Event) -> bool)
    requires S.Always(p, es, ok) && forall s, e :: ok(s, e) ==> S.Possible(s, e)
    ensures S.Always(p, es, S.Possible)
  {
  }

  /** In every run, whatever crashes or settles late, the set never holds more
      leases than the configured limit. */
  lemma {:induction false} LimitHolds(p: S.Params, es: seq<S.Event>)
    requires S.Sensible(p) && S.Always(p, es, S.Possible)
    ensures |Run(p, es).key.entries| <= p.maxInflight
  {
    hide Run, S.Run, S.Always;
    RunRefines(p, es);
    S.RunKeepsOrdered(p, es);
  }

  /** From now on and at every instant, there are at least as many leases in the
      set as holders whose own lease runs. */
  ghost predicate KeepsSlots(s: System) {
    S.AtLeastAsMany(Scores(s.key.entries), Expiries(s.holders), s.clock)
  }

  /** In every run of any number of gateways, running holders keep their slots all
      along if and only if every settlement is in time, or finds a running lease to
      spare, or finds nobody running. */
  lemma {:induction false} SlotsKeptIff(p: S.Params, es: seq<S.Event>)
    requires S.Sensible(p) && S.Always(p, es, S.Possible)
    ensures (forall i :: 0 <= i <= |es| ==> KeepsSlots(Run(p, es[..i]))) <==> S.Always(p, es, S.SparesRunning)
  {
    hide Run, S.Run, S.Always, S.Covered, KeepsSlots;
    S.AlwaysCoveredIff(p, es);
    forall i | 0 <= i <= |es|
      ensures KeepsSlots(Run(p, es[..i])) <==> S.Covered(S.Run(p, es[..i]), S.Run(p, es[..i]).clock)
    {
      S.AlwaysTake(p, es, S.Possible, i);
      KeepsSlotsIfCovered(p, es[..i]);
    }
  }

  lemma KeepsSlotsIfCovered(p: S.Params, es: seq<S.Event>)
    requires S.Sensible(p) && S.Always(p, es, S.Possible)
    ensures KeepsSlots(Run(p, es)) <==> S.Covered(S.Run(p, es), S.Run(p, es).clock)
  {
    hide Run, S.Run, S.Always, After, S.Dominates, S.AtLeastAsMany;
    RunRefines(p, es);
    S.RunKeepsOrdered(p, es);
    S.DominatesIffAtLeastAsMany(S.Run(p, es).leases, S.Run(p, es).holders, S.Run(p, es).clock);
  }

  /** Holders may crash. As long as every settlement spares the running holders,
      in particular while nobody settles after its own lease ran out, every holder
      whose lease runs still has a lease in the set that outlasts it, at every
      instant, so at most maxInflight holders run at a time. */
  lemma {:induction false} RunningHoldersKeepSlots(p: S.Params, es: seq<S.Event>, now: nat)
    requires S.Sensible(p) && S.Always(p, es, S.SparesRunning) && Run(p, es).clock <= now
    ensures S.Dominates(Live(Run(p, es).key, now), After(Expiries(Run(p, es).holders), now))
    ensures |After(Expiries(Run(p, es).holders), now)| <= p.maxInflight
  {
    hide Run, S.Run, S.Always, After;
    PossibleRun(p, es, S.SparesRunning);
    RunRefines(p, es);
    S.RunKeepsCovered(p, es);
    S.RunKeepsOrdered(p, es);
    S.CoveredLater(p, S.Run(p, es), now);
    AfterIsSuffix(S.Run(p, es).leases, now);
  }

  /** When in addition no holder is overdue at any event, leases and holders are
      equally many, although a release drops the oldest lease; and whatever event
      comes next, neither the purge nor the key's expiry drops a lease. */
  lemma {:induction false} SlotsEqualHolders(p: S.Params, es: seq<S.Event>, next: S.Event)
    requires S.Sensible(p) && S.Always(p, es, S.NobodyOverdue) && S.NobodyOverdue(S.Run(p, es), next)
    ensures |Run(p, es).key.entries| == |Run(p, es).holders| <= p.maxInflight
    ensures Scores(RemRangeByScore(Access(Run(p, es).key, next.at).entries, next.at)) == Scores(Run(p, es).key.entries)
  {
    hide Run, S.Run, S.Always, After, RemRangeByScore;
    PossibleRun(p, es, S.NobodyOverdue);
    RunRefines(p, es);
    S.EquallyMany(p, es);
    S.RunKeepsOrdered(p, es);
    TimelyRun(p, es);
    S.RunKeepsCovered(p, es);
    S.NothingPurged(p, S.Run(p, es), next.at);
    PurgeSeesEveryLiveLease(Run(p, es).key, next.at);
  }

  lemma TimelyRun(p: S.Params, es: seq<S.Event>)
    requires S.Always(p, es, S.NobodyOverdue)
    ensures S.Always(p, es, S.SparesRunning)
  {
    hide S.Run;
  }

  /** Whatever happened before, the set is empty once no acquire occurred for one
      lease period. */
  lemma {:induction false} DrainsAfterOneLease(p: S.Params, es: seq<S.Event>, now: nat)
    requires S.Sensible(p) && S.Always(p, es, S.Possible) && Run(p, es).clock <= now
    requires forall i :: 0 <= i < |es| && es[i].Acquire? ==> es[i].at + p.lease <= now
    ensures RemRangeByScore(Access(Run(p, es).key, now).entries, now) == []
  {
    hide Run, S.Run, S.Always, After, RemRangeByScore;
    RunRefines(p, es);
    S.LeasesBounded(p, es, now);
    PurgeSeesEveryLiveLease(Run(p, es).key, now);
    AfterOfEarlier(Scores(Run(p, es).key.entries), now);
  }

  /** More than one lease after the last event Redis has dropped the key itself. */
  lemma {:induction false} KeyExpires(p: S.Params, es: seq<S.Event>, now: nat)
    requires S.Sensible(p) && S.Always(p, es, S.Possible) && Run(p, es).clock + p.lease < now
    ensures Access(Run(p, es).key, now) == ABSENT
  {
    hide Run, S.Run, S.Always;
    RunRefines(p, es);
  }

  /** Under steady traffic that settles in time the slot of a crashed holder is
      still taken after any number of rounds, long after its lease ended. */
  lemma CrashedSlotCarriedForward(p: S.Params, rounds: nat)
    requires 2 <= p.maxInflight && 2 <= p.lease && 2 <= rounds
    ensures S.Always(p, S.Traffic(p, rounds), S.SettlesInTime)
    ensures var s := Run(p, S.Traffic(p, rounds));
            && rounds <= s.clock
            && |s.holders| == 1 && After(Expiries(s.holders), s.clock) == []
            && |Live(s.key, s.clock)| == 1
  {
    hide Run, S.Run, S.Always, After, S.Traffic;
    var es := S.Traffic(p, rounds);
    S.CrashedSlotCarriedForward(p, rounds);
    PossibleRun(p, es, S.SettlesInTime);
    RunRefines(p, es);
    AfterOfLater(S.Run(p, es).leases, S.Run(p, es).clock);
    AfterOfEarlier(S.Run(p, es).holders, S.Run(p, es).clock);
  }
}
