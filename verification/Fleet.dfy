/** Any number of gateways, each with its own circuit breaker and serial, sharing
    the Redis keys: whole runs of Allow and the settlements. */
module Fleet {
  import opened Redis
  import opened Text
  import Budget
  import Circuit
  import Inflight
  import RateWindow
  import L = Limiter
  import S = Semaphore

  /** `holders` are the requests that were admitted and have not settled. */
  datatype System = System(
    inflight: ZSet, rates: map<string, ZSet>, budgets: map<string, map<nat, Budget.Counter>>,
    breakers: map<string, Circuit.Breaker>, serials: map<string, nat>,
    holders: seq<Inflight.Holder>, clock: nat)

  const START := System(ABSENT, map[], map[], map[], map[], [], 0)

  datatype Call =
    | AllowCall(gateway: string, player: string, estTokens: int, at: nat)
    | SettleCall(holder: nat, settlement: L.Settlement, at: nat)  // by the gateway that admitted it

  /** The limiter as one gateway sees it. */
  function SeenBy(s: System, gw: string): L.State {
    L.State(s.inflight, s.rates, s.budgets,
            if gw in s.breakers then s.breakers[gw] else Circuit.FRESH, Serial(s.serials, gw))
  }

  function ConfigOf(c: L.Config, gw: string): L.Config {
    c.(instance := gw)
  }

  function Update(s: System, gw: string, seen: L.State, holders: seq<Inflight.Holder>, at: nat): System {
    System(seen.inflight, seen.rates, seen.budgets, s.breakers[gw := seen.breaker], s.serials[gw := seen.serial], holders, at)
  }

  function VerdictOf(c: L.Config, s: System, call: Call): L.Verdict
    requires call.AllowCall?
  {
    L.Allow(ConfigOf(c, call.gateway), SeenBy(s, call.gateway), call.player, call.estTokens, call.at).1
  }

  function GatewayOf(s: System, call: Call): string {
    if call.AllowCall? then call.gateway
    else if call.holder < |s.holders| then s.holders[call.holder].gateway
    else ""
  }

  function Apply(c: L.Config, s: System, call: Call): System {
    var gw := GatewayOf(s, call);
    var gc := ConfigOf(c, gw);
    match call
    case AllowCall(_, player, est, at) =>
      var (seen, v) := L.Allow(gc, SeenBy(s, gw), player, est, at);
      Update(s, gw, seen, if v.Admitted? then s.holders + [Inflight.Holder(gw, at + c.slots.lease)] else s.holders, at)
    case SettleCall(h, st, at) =>
      Update(s, gw, L.Settle(gc, SeenBy(s, gw), st, at), S.Without(s.holders, h), at)
  }

  function Run(c: L.Config, calls: seq<Call>): System {
    if calls == [] then START else Apply(c, Run(c, calls[..|calls| - 1]), calls[|calls| - 1])
  }

  // ---- hypotheses on a run ----

  /** The clock does not run backwards, instance ids have no colon, and only an
      outstanding request settles, with the player's name it was admitted under. */
  ghost predicate Possible(s: System, call: Call) {
    && s.clock <= call.at && ':' !in GatewayOf(s, call)
    && (call.SettleCall? ==>
          call.holder < |s.holders| && (call.settlement.Success? ==> TrimSpace(call.settlement.player) != ""))
  }

  /** A settlement comes before its own request's lease ends. */
  ghost predicate SettlesInTime(s: System, call: Call) {
    Possible(s, call) && (call.SettleCall? ==> call.at < s.holders[call.holder].expiry)
  }

  ghost predicate NobodyOverdue(s: System, call: Call) {
    Possible(s, call) && forall i :: 0 <= i < |s.holders| ==> call.at < s.holders[i].expiry
  }

  ghost predicate Always(c: L.Config, calls: seq<Call>, ok: (System, Call) -> bool) {
    calls == [] ||
    (Always(c, calls[..|calls| - 1], ok) && ok(Run(c, calls[..|calls| - 1]), calls[|calls| - 1]))
  }

  lemma {:induction false} AlwaysWeaker(c: L.Config, calls: seq<Call>, ok: (System, Call) -> bool, weaker: (System, Call) -> bool)
    requires Always(c, calls, ok) && forall s, call :: ok(s, call) ==> weaker(s, call)
    ensures Always(c, calls, weaker)
  {
    hide Run;
    if calls != [] { AlwaysWeaker(c, calls[..|calls| - 1], ok, weaker); }
  }

  // ---- the keys stay valid for every gateway ----

  ghost predicate Valid(c: L.Config, s: System) {
    forall gw | ':' !in gw :: L.ValidKeys(ConfigOf(c, gw), SeenBy(s, gw), s.clock)
  }

  lemma OtherNamesUnissued(es: seq<Entry>, es': seq<Entry>, gw: string, other: string, serial: nat)
    requires L.OnlyAdds(gw, es, es') && Unissued(es, other, serial)
    requires gw != other && ':' !in gw && ':' !in other
    ensures Unissued(es', other, serial)
  {
    hide HasMember, MemberName;
    forall t: nat, n: nat | serial < n ensures !HasMember(es', MemberName(other, t, n)) {
      if L.NamedBy(gw, MemberName(other, t, n)) {
        var t': nat, n': nat :| MemberName(other, t, n) == MemberName(gw, t', n');
        MemberNameInjective(other, t, n, gw, t', n');
      }
    }
  }

  /** What one gateway's call does to the keys leaves them valid for the others. */
  lemma OtherGatewayValid(c: L.Config, s: System, gw: string, seen: L.State, other: string, now: nat)
    requires ':' !in gw && ':' !in other && gw != other
    requires L.ValidKeys(ConfigOf(c, other), SeenBy(s, other), now)
    requires L.ValidKeys(ConfigOf(c, gw), seen, now) && L.GainsOwnNames(ConfigOf(c, gw), SeenBy(s, gw), seen)
    ensures forall holders :: L.ValidKeys(ConfigOf(c, other), SeenBy(Update(s, gw, seen, holders, now), other), now)
  {
    hide HasMember, MemberName, Unissued, L.OnlyAdds, Inflight.WellFormed, RateWindow.WellFormed;
    var serial := Serial(s.serials, other);
    OtherNamesUnissued(s.inflight.entries, seen.inflight.entries, gw, other, serial);
    forall holders ensures L.ValidKeys(ConfigOf(c, other), SeenBy(Update(s, gw, seen, holders, now), other), now) {
      var seen' := SeenBy(Update(s, gw, seen, holders, now), other);
      forall p ensures RateWindow.WellFormed(L.RateKey(seen', p), now, c.rate.window)
                       && Unissued(L.RateKey(seen', p).entries, other, serial) {
        assert L.RateKey(seen', p) == L.RateKey(seen, p) && L.RateKey(SeenBy(s, gw), p) == L.RateKey(SeenBy(s, other), p);
        OtherNamesUnissued(L.RateKey(SeenBy(s, gw), p).entries, L.RateKey(seen, p).entries, gw, other, serial);
      }
    }
  }

  lemma ValidLater(c: L.Config, s: System, gw: string, now: nat)
    requires Valid(c, s) && ':' !in gw && s.clock <= now
    ensures L.ValidKeys(ConfigOf(c, gw), SeenBy(s, gw), now)
  {
    hide L.ValidKeys;
    L.ValidKeysLater(ConfigOf(c, gw), SeenBy(s, gw), s.clock, now);
  }

  lemma StepKeepsValid(c: L.Config, s: System, call: Call)
    requires L.ValidConfig(c) && Valid(c, s) && Possible(s, call)
    ensures Valid(c, Apply(c, s, call))
  {
    hide L.ValidKeys, L.Allow, L.Settle, L.GainsOwnNames, TrimSpace, SeenBy, Circuit.ValidConfig;
    var gw, at := GatewayOf(s, call), call.at;
    var gc, seen := ConfigOf(c, gw), SeenBy(s, gw);
    ValidLater(c, s, gw, at);
    var seen' := if call.AllowCall? then L.Allow(gc, seen, call.player, call.estTokens, at).0 else L.Settle(gc, seen, call.settlement, at);
    if call.AllowCall? {
      L.AllowAccounting(gc, seen, call.player, call.estTokens, at);
      L.AllowGains(gc, seen, call.player, call.estTokens, at);
    } else {
      L.SettlementFreesOneSlot(gc, seen, call.settlement, at);
      L.SettleGains(gc, seen, call.settlement, at);
    }
    var s' := Apply(c, s, call);
    assert s' == Update(s, gw, seen', s'.holders, at);
    forall other | ':' !in other ensures L.ValidKeys(ConfigOf(c, other), SeenBy(s', other), at) {
      if other == gw {
        SeesOwnUpdate(s, gw, seen', s'.holders, at);
      } else {
        ValidLater(c, s, other, at);
        OtherGatewayValid(c, s, gw, seen', other, at);
      }
    }
  }

  lemma SeesOwnUpdate(s: System, gw: string, seen: L.State, holders: seq<Inflight.Holder>, at: nat)
    ensures SeenBy(Update(s, gw, seen, holders, at), gw) == seen
  {
  }

  /** After any sequence of calls by any number of gateways the keys are valid for
      each of them, at every later instant, so AllowAccounting and
      SettlementFreesOneSlot apply to whatever call comes next. */
  lemma {:induction false} ReachableKeysValid(c: L.Config, calls: seq<Call>, gw: string, now: nat)
    requires L.ValidConfig(c) && Always(c, calls, Possible) && ':' !in gw && Run(c, calls).clock <= now
    ensures L.ValidKeys(ConfigOf(c, gw), SeenBy(Run(c, calls), gw), now)
  {
    hide Run, Valid, Always;
    RunKeepsValid(c, calls);
    ValidLater(c, Run(c, calls), gw, now);
  }

  lemma {:induction false} RunKeepsValid(c: L.Config, calls: seq<Call>)
    requires L.ValidConfig(c) && Always(c, calls, Possible)
    ensures Valid(c, Run(c, calls))
  {
    hide Valid, Apply, Possible, L.ValidConfig;
    if calls == [] {
      StartValid(c);
    } else {
      RunKeepsValid(c, calls[..|calls| - 1]);
      StepKeepsValid(c, Run(c, calls[..|calls| - 1]), calls[|calls| - 1]);
    }
  }

  lemma StartValid(c: L.Config)
    ensures Valid(c, START)
  {
    hide L.ValidKeys;
    forall gw | ':' !in gw ensures L.ValidKeys(ConfigOf(c, gw), SeenBy(START, gw), 0) {
      L.StartValid(ConfigOf(c, gw));
    }
  }

  // ---- a run of calls is a run of the semaphore ----

  /** What a call does to the in-flight slots. A request refused by its rate has
      acquired a slot and settles it, being the latest holder. */
  function EventsOf(c: L.Config, s: System, call: Call): seq<S.Event> {
    match call
    case AllowCall(gw, _, _, at) =>
      var v := VerdictOf(c, s, call);
      if v.Admitted? || v.InflightFull? then [S.Acquire(gw, at)]
      else if v.RateLimited? then [S.Acquire(gw, at), S.Settle(|s.holders|, at)]
      else []
    case SettleCall(h, _, at) => [S.Settle(h, at)]
  }

  function Events(c: L.Config, calls: seq<Call>): seq<S.Event> {
    if calls == [] then []
    else Events(c, calls[..|calls| - 1]) + EventsOf(c, Run(c, calls[..|calls| - 1]), calls[|calls| - 1])
  }

  function Steps(p: S.Params, ss: S.State, es: seq<S.Event>): S.State {
    if es == [] then ss else S.Step(p, Steps(p, ss, es[..|es| - 1]), es[|es| - 1])
  }

  ghost predicate AllOk(p: S.Params, ss: S.State, es: seq<S.Event>, ok: (S.State, S.Event) -> bool) {
    es == [] || (AllOk(p, ss, es[..|es| - 1], ok) && ok(Steps(p, ss, es[..|es| - 1]), es[|es| - 1]))
  }

  lemma {:induction false} AppendEvents(p: S.Params, es: seq<S.Event>, more: seq<S.Event>, ok: (S.State, S.Event) -> bool)
    requires S.Always(p, es, ok) && AllOk(p, S.Run(p, es), more, ok)
    ensures S.Always(p, es + more, ok) && S.Run(p, es + more) == Steps(p, S.Run(p, es), more)
  {
    hide S.Always, S.Run, S.Step;
    if more == [] {
      assert es + more == es;
    } else {
      var n := |more| - 1;
      AppendEvents(p, es, more[..n], ok);
      S.AlwaysSnoc(p, es + more[..n], more[n], ok);
      assert es + more == es + more[..n] + [more[n]];
    }
  }

  lemma OneEvent(p: S.Params, ss: S.State, e: S.Event, ok: (S.State, S.Event) -> bool)
    ensures Steps(p, ss, [e]) == S.Step(p, ss, e)
    ensures AllOk(p, ss, [e], ok) <==> ok(ss, e)
  {
    hide S.Step;
    assert [e][..0] == [];
  }

  lemma TwoEvents(p: S.Params, ss: S.State, e: S.Event, f: S.Event, ok: (S.State, S.Event) -> bool)
    ensures Steps(p, ss, [e, f]) == S.Step(p, S.Step(p, ss, e), f)
    ensures AllOk(p, ss, [e, f], ok) <==> ok(ss, e) && ok(S.Step(p, ss, e), f)
  {
    hide S.Step;
    OneEvent(p, ss, e, ok);
    assert [e, f][..1] == [e];
  }

  /** The semaphore has the same holders, and its running leases are those of the key. */
  ghost predicate Refines(s: System, ss: S.State) {
    && ss.holders == Inflight.Expiries(s.holders) && ss.clock <= s.clock
    && After(ss.leases, s.clock) == Inflight.Live(s.inflight, s.clock)
  }

  lemma RefinesLater(s: System, ss: S.State, now: nat)
    requires Refines(s, ss) && s.clock <= now
    ensures After(ss.leases, now) == Inflight.Live(s.inflight, now)
  {
    AfterAfter(ss.leases, s.clock, now);
    AfterAfter(Scores(s.inflight.entries), s.clock, now);
  }

  /** Acquiring and settling one's own slot at once exchanges the oldest lease. */
  lemma AcquireAndSettle(p: S.Params, ss: S.State, gw: string, at: nat)
    requires S.Sensible(p) && |After(ss.leases, at)| < p.maxInflight
    ensures var s1 := S.Step(p, ss, S.Acquire(gw, at));
            && s1.holders == ss.holders + [at + p.lease] && s1.clock == at
            && S.Step(p, s1, S.Settle(|ss.holders|, at)) ==
               S.State(S.Tail(After(ss.leases, at) + [at + p.lease]), ss.holders, at)
  {
    hide After;
    var live := After(ss.leases, at);
    AfterAfter(ss.leases, at, at);
    AfterSnoc(live, at + p.lease, at);
    assert S.Without(ss.holders + [at + p.lease], |ss.holders|) == ss.holders;
  }

  /** A running slot runs: dropping the oldest leaves the later ones. */
  lemma RunningSlots(c: L.Config, s: System, now: nat)
    requires Valid(c, s) && s.clock <= now
    ensures forall i :: 0 <= i < |Inflight.Live(s.inflight, now)| ==> now < Inflight.Live(s.inflight, now)[i]
  {
    hide L.ValidKeys;
    var gw := "";
    ValidLater(c, s, gw, now);
    SlotsAscend(ConfigOf(c, gw), SeenBy(s, gw), now);
    AfterIsSuffix(Scores(s.inflight.entries), now);
  }

  lemma SlotsAscend(c: L.Config, s: L.State, now: nat)
    requires L.ValidKeys(c, s, now)
    ensures Ascending(Scores(s.inflight.entries))
  {
  }

  lemma AllowRefines(c: L.Config, s: System, ss: S.State, call: Call)
    requires L.ValidConfig(c) && Valid(c, s) && Possible(s, call) && Refines(s, ss) && call.AllowCall?
    ensures Refines(Apply(c, s, call), Steps(c.slots, ss, EventsOf(c, s, call)))
    ensures VerdictOf(c, s, call).RateLimited? ==> |After(ss.leases, call.at)| < c.slots.maxInflight
  {
    hide Valid, L.ValidKeys, L.Allow, After, AllOk, TrimSpace, L.Window, L.RateKey, SeenBy, Steps;
    var gw, at := call.gateway, call.at;
    var gc, seen := ConfigOf(c, gw), SeenBy(s, gw);
    ValidLater(c, s, gw, at);
    L.AllowAccounting(gc, seen, call.player, call.estTokens, at);
    RefinesLater(s, ss, at);
    RunningSlots(c, s, at);
    SeesSlots(s, gw, at);
    var live, x := After(ss.leases, at), at + c.slots.lease;
    AfterOfLater(live, at);
    AfterOfLater(live + [x], at);
    AfterOfLater(S.Tail(live + [x]), at);
    OneEvent(c.slots, ss, S.Acquire(gw, at), S.Possible);
    TwoEvents(c.slots, ss, S.Acquire(gw, at), S.Settle(|s.holders|, at), S.Possible);
    NoEvent(c.slots, ss);
    if VerdictOf(c, s, call).RateLimited? { AcquireAndSettle(c.slots, ss, gw, at); }
    assert Inflight.Expiries(s.holders + [Inflight.Holder(gw, x)]) == Inflight.Expiries(s.holders) + [x];
  }

  lemma NoEvent(p: S.Params, ss: S.State)
    ensures Steps(p, ss, []) == ss
  {
  }

  lemma SeesSlots(s: System, gw: string, now: nat)
    ensures L.Slots(SeenBy(s, gw), now) == Inflight.Live(s.inflight, now)
  {
  }

  lemma SettleRefines(c: L.Config, s: System, ss: S.State, call: Call)
    requires Valid(c, s) && Possible(s, call) && Refines(s, ss) && call.SettleCall?
    ensures Refines(Apply(c, s, call), Steps(c.slots, ss, EventsOf(c, s, call)))
  {
    hide Valid, L.ValidKeys, L.Settle, After, AllOk, TrimSpace, L.Window, L.RateKey, SeenBy, Steps;
    var gw, at := GatewayOf(s, call), call.at;
    ValidLater(c, s, gw, at);
    L.SettlementFreesOneSlot(ConfigOf(c, gw), SeenBy(s, gw), call.settlement, at);
    RefinesLater(s, ss, at);
    RunningSlots(c, s, at);
    SeesSlots(s, gw, at);
    AfterOfLater(S.Tail(After(ss.leases, at)), at);
    OneEvent(c.slots, ss, S.Settle(call.holder, at), S.Possible);
    assert Inflight.Expiries(S.Without(s.holders, call.holder)) == S.Without(Inflight.Expiries(s.holders), call.holder);
  }

  /** The events of a possible, timely or nowhere overdue call are that as well. */
  lemma EventsOk(c: L.Config, s: System, ss: S.State, call: Call)
    requires L.ValidConfig(c) && Valid(c, s) && Possible(s, call) && Refines(s, ss)
    ensures AllOk(c.slots, ss, EventsOf(c, s, call), S.Possible)
    ensures SettlesInTime(s, call) ==> AllOk(c.slots, ss, EventsOf(c, s, call), S.SettlesInTime)
    ensures NobodyOverdue(s, call) ==> AllOk(c.slots, ss, EventsOf(c, s, call), S.NobodyOverdue)
  {
    hide Valid, L.Allow, After, Apply, AllOk, TrimSpace, Steps, VerdictOf;
    var es := EventsOf(c, s, call);
    if call.AllowCall? && es == [] {
      NoneToCheck(c.slots, ss);
    } else {
      if call.AllowCall? { AllowRefines(c, s, ss, call); }
      var first := if call.AllowCall? then S.Acquire(call.gateway, call.at) else S.Settle(call.holder, call.at);
      assert S.Possible(ss, first);
      CheckEvents(c.slots, ss, first, S.Settle(|s.holders|, call.at));
      if |es| == 2 { AcquireAndSettle(c.slots, ss, call.gateway, call.at); }
    }
  }

  lemma NoneToCheck(p: S.Params, ss: S.State)
    ensures AllOk(p, ss, [], S.Possible) && AllOk(p, ss, [], S.SettlesInTime) && AllOk(p, ss, [], S.NobodyOverdue)
  {
  }

  lemma CheckEvents(p: S.Params, ss: S.State, e: S.Event, f: S.Event)
    ensures AllOk(p, ss, [e], S.Possible) <==> S.Possible(ss, e)
    ensures AllOk(p, ss, [e], S.SettlesInTime) <==> S.SettlesInTime(ss, e)
    ensures AllOk(p, ss, [e], S.NobodyOverdue) <==> S.NobodyOverdue(ss, e)
    ensures AllOk(p, ss, [e, f], S.Possible) <==> S.Possible(ss, e) && S.Possible(S.Step(p, ss, e), f)
    ensures AllOk(p, ss, [e, f], S.SettlesInTime) <==> S.SettlesInTime(ss, e) && S.SettlesInTime(S.Step(p, ss, e), f)
    ensures AllOk(p, ss, [e, f], S.NobodyOverdue) <==> S.NobodyOverdue(ss, e) && S.NobodyOverdue(S.Step(p, ss, e), f)
  {
    hide S.Step, S.Possible, S.SettlesInTime, S.NobodyOverdue, AllOk, Steps;
    OneEvent(p, ss, e, S.Possible);
    OneEvent(p, ss, e, S.SettlesInTime);
    OneEvent(p, ss, e, S.NobodyOverdue);
    TwoEvents(p, ss, e, f, S.Possible);
    TwoEvents(p, ss, e, f, S.SettlesInTime);
    TwoEvents(p, ss, e, f, S.NobodyOverdue);
  }

  /** Every run of Allow and the settlements, by any number of gateways, is a run of
      the semaphore over the admitted requests: it has the same holders and, at
      every later instant, the same running leases. */
  lemma {:induction false} RunRefines(c: L.Config, calls: seq<Call>, now: nat)
    requires L.ValidConfig(c) && Always(c, calls, Possible) && Run(c, calls).clock <= now
    ensures var ss := S.Run(c.slots, Events(c, calls));
            && S.Always(c.slots, Events(c, calls), S.Possible)
            && ss.holders == Inflight.Expiries(Run(c, calls).holders) && ss.clock <= Run(c, calls).clock
            && After(ss.leases, now) == Inflight.Live(Run(c, calls).inflight, now)
  {
    hide Run, Events, Always, S.Always, S.Run, After, L.ValidConfig;
    RunRefinesNow(c, calls);
    RefinesLater(Run(c, calls), S.Run(c.slots, Events(c, calls)), now);
  }

  lemma {:induction false} RunRefinesNow(c: L.Config, calls: seq<Call>)
    requires L.ValidConfig(c) && Always(c, calls, Possible)
    ensures S.Always(c.slots, Events(c, calls), S.Possible)
    ensures Refines(Run(c, calls), S.Run(c.slots, Events(c, calls)))
  {
    hide S.Always, S.Run, S.Step, Refines, Apply, EventsOf, Possible, Steps, AllOk, Valid, L.ValidConfig;
    if calls == [] {
      StartRefines(c.slots);
    } else {
      var n := |calls| - 1;
      var s, call, es := Run(c, calls[..n]), calls[n], Events(c, calls[..n]);
      RunRefinesNow(c, calls[..n]);
      RunKeepsValid(c, calls[..n]);
      EventsOk(c, s, S.Run(c.slots, es), call);
      AppendEvents(c.slots, es, EventsOf(c, s, call), S.Possible);
      if call.AllowCall? { AllowRefines(c, s, S.Run(c.slots, es), call); } else { SettleRefines(c, s, S.Run(c.slots, es), call); }
    }
  }

  lemma StartRefines(p: S.Params)
    ensures S.Always(p, [], S.Possible) && S.Always(p, [], S.SettlesInTime) && S.Always(p, [], S.NobodyOverdue)
    ensures Refines(START, S.Run(p, []))
  {
    assert Inflight.Expiries([]) == [];
  }

  lemma {:induction false} TimelyRun(c: L.Config, calls: seq<Call>)
    requires L.ValidConfig(c) && Always(c, calls, SettlesInTime)
    ensures S.Always(c.slots, Events(c, calls), S.SettlesInTime) && Always(c, calls, Possible)
  {
    hide S.Always, S.Run, Refines, Apply, EventsOf, Steps, AllOk, Valid, L.ValidConfig;
    AlwaysWeaker(c, calls, SettlesInTime, Possible);
    if calls == [] {
      StartRefines(c.slots);
    } else {
      var n := |calls| - 1;
      var s, es := Run(c, calls[..n]), Events(c, calls[..n]);
      TimelyRun(c, calls[..n]);
      RunRefinesNow(c, calls[..n]);
      RunKeepsValid(c, calls[..n]);
      EventsOk(c, s, S.Run(c.slots, es), calls[n]);
      AppendEvents(c.slots, es, EventsOf(c, s, calls[n]), S.SettlesInTime);
    }
  }

  lemma {:induction false} NobodyOverdueRun(c: L.Config, calls: seq<Call>)
    requires L.ValidConfig(c) && Always(c, calls, NobodyOverdue)
    ensures S.Always(c.slots, Events(c, calls), S.NobodyOverdue) && Always(c, calls, Possible)
  {
    hide S.Always, S.Run, Refines, Apply, EventsOf, Steps, AllOk, Valid, L.ValidConfig;
    AlwaysWeaker(c, calls, NobodyOverdue, Possible);
    if calls == [] {
      StartRefines(c.slots);
    } else {
      var n := |calls| - 1;
      var s, es := Run(c, calls[..n]), Events(c, calls[..n]);
      NobodyOverdueRun(c, calls[..n]);
      RunRefinesNow(c, calls[..n]);
      RunKeepsValid(c, calls[..n]);
      EventsOk(c, s, S.Run(c.slots, es), calls[n]);
      AppendEvents(c.slots, es, EventsOf(c, s, calls[n]), S.NobodyOverdue);
    }
  }

  // ---- what this means for Allow ----

  /** Whatever crashes, is refused by its rate or settles late, no more than
      maxInflight slots run. */
  lemma {:induction false} SlotLimitHolds(c: L.Config, calls: seq<Call>, now: nat)
    requires L.ValidConfig(c) && Always(c, calls, Possible) && Run(c, calls).clock <= now
    ensures |Inflight.Live(Run(c, calls).inflight, now)| <= c.slots.maxInflight
  {
    hide Run, Events, Always, S.Always, S.Run, After;
    RunRefines(c, calls, now);
    S.RunKeepsOrdered(c.slots, Events(c, calls));
    AfterIsSuffix(S.Run(c.slots, Events(c, calls)).leases, now);
  }

  /** Admitted requests may crash. While nobody settles after its own lease ended,
      there is at every later instant a running slot for each admitted request whose
      lease runs, so at most maxInflight of them run. */
  lemma {:induction false} RunningRequestsKeepSlots(c: L.Config, calls: seq<Call>, now: nat)
    requires L.ValidConfig(c) && Always(c, calls, SettlesInTime) && Run(c, calls).clock <= now
    ensures var s := Run(c, calls);
            |After(Inflight.Expiries(s.holders), now)| <= |Inflight.Live(s.inflight, now)| <= c.slots.maxInflight
  {
    hide Run, Events, Always, S.Always, S.Run, After, S.Ordered;
    var es := Events(c, calls);
    TimelyRun(c, calls);
    RunRefines(c, calls, now);
    SlotLimitHolds(c, calls, now);
    S.TimelyIsPossible(c.slots, es);
    S.RunKeepsCovered(c.slots, es);
    S.CoveredLater(c.slots, S.Run(c.slots, es), now);
  }

  /** When no admitted request is overdue, the running slots are exactly as many as
      the admitted requests that have not settled, and the next Allow is decided by
      their number, whichever gateway it comes to. */
  lemma {:induction false} AdmittedIffRequestsFit(c: L.Config, calls: seq<Call>, call: Call)
    requires L.ValidConfig(c) && Always(c, calls, NobodyOverdue) && NobodyOverdue(Run(c, calls), call) && call.AllowCall?
    ensures var s, player, gc := Run(c, calls), TrimSpace(call.player), ConfigOf(c, call.gateway);
            var seen := SeenBy(s, call.gateway);
            && |Inflight.Live(s.inflight, call.at)| == |s.holders| <= c.slots.maxInflight
            && (VerdictOf(c, s, call).Admitted? <==>
                  && player != "" && call.estTokens >= 0 && Circuit.Ready(c.circuit, seen.breaker, call.at)
                  && L.UsedToday(seen, player, call.at) + call.estTokens <= c.tokenBudget
                  && |s.holders| < c.slots.maxInflight
                  && |L.Window(gc, seen, player, call.at)| < c.rate.limit)
  {
    hide Run, Events, Always, S.Always, S.Run, After, S.Ordered, L.Allow, L.ValidKeys, L.Window, TrimSpace, Circuit.Ready;
    var s, es := Run(c, calls), Events(c, calls);
    NobodyOverdueRun(c, calls);
    RunRefines(c, calls, call.at);
    SlotLimitHolds(c, calls, call.at);
    Inflight.TimelyRun(c.slots, es);
    S.EquallyMany(c.slots, es);
    S.RunKeepsCovered(c.slots, es);
    S.NothingPurged(c.slots, S.Run(c.slots, es), call.at);
    ReachableKeysValid(c, calls, call.gateway, call.at);
    L.AllowAccounting(ConfigOf(c, call.gateway), SeenBy(s, call.gateway), call.player, call.estTokens, call.at);
    SeesSlots(s, call.gateway, call.at);
  }
}
