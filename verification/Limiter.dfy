/** The limiter's Allow and its three settlements, over the Redis keys that all
    gateways share and this gateway's own circuit breaker. */
module Limiter {
  import opened Redis
  import opened Text
  import Budget
  import Circuit
  import Inflight
  import RateWindow
  import S = Semaphore

  datatype Config = Config(
    instance: string, rate: RateWindow.Params, tokenBudget: nat, slots: S.Params, circuit: Circuit.Config)

  /** What New accepts. */
  predicate ValidConfig(c: Config) {
    && ':' !in c.instance
    && 1 <= c.rate.limit && 1 <= c.rate.window && 1 <= c.tokenBudget
    && 1 <= c.slots.maxInflight && 1 <= c.slots.lease && Circuit.ValidConfig(c.circuit)
  }

  datatype State = State(
    inflight: ZSet, rates: map<string, ZSet>, budgets: map<string, map<nat, Budget.Counter>>,
    breaker: Circuit.Breaker, serial: nat)

  function RateKey(s: State, player: string): ZSet {
    if player in s.rates then s.rates[player] else ABSENT
  }

  function Counters(s: State, player: string): map<nat, Budget.Counter> {
    if player in s.budgets then s.budgets[player] else map[]
  }

  datatype Verdict = Admitted | PlayerRequired | NegativeEstimate | CircuitOpen | BudgetExceeded | InflightFull | RateLimited

  // ---- Allow ----

  function Token(c: Config, s: State, now: nat): string {
    MemberName(c.instance, now, s.serial + 1)
  }

  function AcquireInflight(c: Config, s: State, now: nat): (State, bool) {
    var (key, r) := Inflight.AcquireScript(s.inflight, now, c.slots.maxInflight, now + c.slots.lease, Token(c, s, now), c.slots.lease);
    (s.(inflight := key, serial := s.serial + 1), r >= 0)
  }

  function ReleaseInflight(s: State, now: nat): State {
    s.(inflight := Inflight.ReleaseScript(s.inflight, now).0)
  }

  function AllowRate(c: Config, s: State, player: string, now: nat): (State, bool) {
    var (key, r) := RateWindow.RateScript(RateKey(s, player), now, now - c.rate.window, c.rate.limit, Token(c, s, now), c.rate.window);
    (s.(rates := s.rates[player := key], serial := s.serial + 1), r != 0)
  }

  function CancelProbe(s: State): State {
    s.(breaker := Circuit.CancelProbe(s.breaker))
  }

  /** The guards in the order the code tries them, undoing what an earlier guard
      took when a later one refuses. */
  function Allow(c: Config, s: State, rawPlayer: string, estTokens: int, now: nat): (State, Verdict) {
    var player := TrimSpace(rawPlayer);
    if player == "" then (s, PlayerRequired)
    else if estTokens < 0 then (s, NegativeEstimate)
    else if !Circuit.Ready(c.circuit, s.breaker, now) then (s, CircuitOpen)
    else if !Budget.WithinBudget(Counters(s, player), c.tokenBudget, estTokens, now) then (s, BudgetExceeded)
    else
      var (breaker, ok) := Circuit.Allow(c.circuit, s.breaker, now, now);
      var s1 := s.(breaker := breaker);
      if !ok then (s1, CircuitOpen)
      else
        var (s2, got) := AcquireInflight(c, s1, now);
        if !got then (CancelProbe(s2), InflightFull)
        else
          var (s3, admitted) := AllowRate(c, s2, player, now);
          if !admitted then (CancelProbe(ReleaseInflight(s3, now)), RateLimited)
          else (s3, Admitted)
  }

  // ---- settlements ----

  datatype Settlement = Success(player: string, usedTokens: int) | Failure | Cancelled

  function RecordOutcome(c: Config, s: State, success: bool, now: nat): State {
    s.(breaker := Circuit.Record(c.circuit, s.breaker, success, now))
  }

  function RecordTokens(s: State, player: string, used: int, now: nat): State {
    s.(budgets := s.budgets[player := Budget.RecordTokens(Counters(s, player), used, now, now, now)])
  }

  /** Record, RecordFailure and Release. */
  function Settle(c: Config, s: State, st: Settlement, now: nat): State {
    match st
    case Success(rawPlayer, used) =>
      var player := TrimSpace(rawPlayer);
      if player == "" then s
      else RecordTokens(RecordOutcome(c, ReleaseInflight(s, now), true, now), player, used, now)
    case Failure => RecordOutcome(c, ReleaseInflight(s, now), false, now)
    case Cancelled => ReleaseInflight(CancelProbe(s), now)
  }

  /** The limiter as the gateway runs it: shared keys and counters reassigned by
      each script, the breaker an object of its own. */
  class RedisLimiter {
    const cfg: Config
    const breaker: Circuit.CircuitBreaker
    var inflight: ZSet
    var rates: map<string, ZSet>
    var budgets: map<string, map<nat, Budget.Counter>>
    var memberSerial: nat

    ghost predicate Valid()
      reads this, breaker
    {
      ValidConfig(cfg) && breaker.cfg == cfg.circuit
    }

    function Value(): State
      reads this, breaker
    {
      State(inflight, rates, budgets, breaker.Value(), memberSerial)
    }

    constructor (c: Config)
      requires ValidConfig(c)
      ensures Valid() && cfg == c && fresh(breaker)
      ensures Value() == State(ABSENT, map[], map[], Circuit.FRESH, 0)
    {
      cfg := c;
      breaker := new Circuit.CircuitBreaker(c.circuit);
      inflight, rates, budgets, memberSerial := ABSENT, map[], map[], 0;
    }

    method AcquireSlot(now: nat) returns (ok: bool)
      modifies this`inflight, this`memberSerial
      ensures (Value(), ok) == AcquireInflight(cfg, old(Value()), now)
    {
      memberSerial := memberSerial + 1;
      var result;
      inflight, result := AcquireKey(inflight, now, MemberName(cfg.instance, now, memberSerial));
      ok := result >= 0;
    }

    method AcquireKey(key: ZSet, now: nat, token: string) returns (key': ZSet, result: int)
      ensures (key', result) == Inflight.AcquireScript(key, now, cfg.slots.maxInflight, now + cfg.slots.lease, token, cfg.slots.lease)
    {
      key' := Access(key, now);
      key' := key'.(entries := RemRangeByScore(key'.entries, now));
      var count := |key'.entries|;
      if count >= cfg.slots.maxInflight { return key', -1; }
      key' := key'.(entries := Add(key'.entries, Entry(now + cfg.slots.lease, token)));
      key' := key'.(expireAt := now + cfg.slots.lease);
      return key', count + 1;
    }

    method ReleaseSlot(now: nat)
      modifies this`inflight
      ensures Value() == ReleaseInflight(old(Value()), now)
    {
      inflight := Access(inflight, now);
      inflight := inflight.(entries := RemRangeByScore(inflight.entries, now));
      if |inflight.entries| > 0 { inflight := inflight.(entries := inflight.entries[1..]); }
      if |inflight.entries| == 0 { inflight := ABSENT; }
    }

    method CheckRate(player: string, now: nat) returns (ok: bool)
      modifies this`rates, this`memberSerial
      ensures (Value(), ok) == AllowRate(cfg, old(Value()), player, now)
    {
      memberSerial := memberSerial + 1;
      var key := Access(RateKey(Value(), player), now);
      key := key.(entries := RemRangeByScore(key.entries, now - cfg.rate.window));
      ok := |key.entries| < cfg.rate.limit;
      if ok {
        key := ZSet(Add(key.entries, Entry(now, MemberName(cfg.instance, now, memberSerial))), now + cfg.rate.window);
      }
      rates := rates[player := key];
    }

    method AllowRequest(rawPlayer: string, estTokens: int, now: nat) returns (verdict: Verdict)
      requires Valid()
      modifies this, breaker
      ensures Valid()
      ensures (Value(), verdict) == Allow(cfg, old(Value()), rawPlayer, estTokens, now)
    {
      var player := TrimSpace(rawPlayer);
      if player == "" { return PlayerRequired; }
      if estTokens < 0 { return NegativeEstimate; }
      var ready := breaker.IsReady(now);
      if !ready { return CircuitOpen; }
      if Budget.Current(Counters(Value(), player), Budget.DayOf(now), now) + estTokens > cfg.tokenBudget {
        return BudgetExceeded;
      }
      var open := breaker.Admit(now, now);
      if !open { return CircuitOpen; }
      var got := AcquireSlot(now);
      if !got {
        breaker.Cancel();
        return InflightFull;
      }
      var inRate := CheckRate(player, now);
      if !inRate {
        ReleaseSlot(now);
        breaker.Cancel();
        return RateLimited;
      }
      return Admitted;
    }

    method Record(rawPlayer: string, usedTokens: int, now: nat) returns (ok: bool)
      requires Valid()
      modifies this, breaker
      ensures Valid() && Value() == Settle(cfg, old(Value()), Success(rawPlayer, usedTokens), now)
      ensures ok <==> TrimSpace(rawPlayer) != "" && usedTokens >= 0
    {
      var player := TrimSpace(rawPlayer);
      if player == "" { return false; }
      ReleaseSlot(now);
      breaker.Report(true, now);
      budgets := budgets[player := Budget.RecordTokens(Counters(Value(), player), usedTokens, now, now, now)];
      return usedTokens >= 0;
    }

    method RecordFailure(now: nat)
      requires Valid()
      modifies this, breaker
      ensures Valid() && Value() == Settle(cfg, old(Value()), Failure, now)
    {
      ReleaseSlot(now);
      breaker.Report(false, now);
    }

    method Release(now: nat)
      requires Valid()
      modifies this, breaker
      ensures Valid() && Value() == Settle(cfg, old(Value()), Cancelled, now)
    {
      breaker.Cancel();
      ReleaseSlot(now);
    }
  }

  // ---- what they do to slots, windows and probes ----

  /** The running leases, and a player's admissions that the window still counts. */
  function Slots(s: State, now: nat): seq<nat> {
    Inflight.Live(s.inflight, now)
  }

  function Window(c: Config, s: State, player: string, now: nat): seq<nat> {
    RateWindow.Recent(RateKey(s, player), now, c.rate.window)
  }

  ghost predicate ValidKeys(c: Config, s: State, now: nat) {
    && Inflight.WellFormed(s.inflight, now, c.slots.lease)
    && Unissued(s.inflight.entries, c.instance, s.serial)
    && (forall p :: RateWindow.WellFormed(RateKey(s, p), now, c.rate.window)
                    && Unissued(RateKey(s, p).entries, c.instance, s.serial))
  }

  lemma UnissuedGrows(s: seq<Entry>, s': seq<Entry>, instance: string, t: nat, serial: nat)
    requires Unissued(s, instance, serial) && ':' !in instance
    requires forall m :: HasMember(s', m) ==> HasMember(s, m) || m == MemberName(instance, t, serial + 1)
    ensures Unissued(s', instance, serial + 1)
  {
    hide HasMember, MemberName;
    forall t': nat, n: nat | serial + 1 < n ensures !HasMember(s', MemberName(instance, t', n)) {
      if MemberName(instance, t', n) == MemberName(instance, t, serial + 1) {
        MemberNameInjective(instance, t', n, instance, t, serial + 1);
      }
    }
  }

  lemma UnissuedKeeps(s: seq<Entry>, s': seq<Entry>, instance: string, serial: nat)
    requires Unissued(s, instance, serial)
    requires forall m :: HasMember(s', m) ==> HasMember(s, m)
    ensures Unissued(s', instance, serial)
  {
    hide HasMember, MemberName;
  }

  ghost predicate NamedBy(instance: string, m: string) {
    exists t: nat, n: nat :: m == MemberName(instance, t, n)
  }

  ghost predicate OnlyAdds(instance: string, s: seq<Entry>, s': seq<Entry>) {
    forall m :: HasMember(s', m) ==> HasMember(s, m) || NamedBy(instance, m)
  }

  /** Members that the keys gain carry this gateway's name. */
  ghost predicate GainsOwnNames(c: Config, s: State, s': State) {
    && OnlyAdds(c.instance, s.inflight.entries, s'.inflight.entries)
    && forall p :: OnlyAdds(c.instance, RateKey(s, p).entries, RateKey(s', p).entries)
  }

  lemma GainsNothing(c: Config, s: State, s': State)
    requires s'.inflight == s.inflight && forall p :: RateKey(s', p) == RateKey(s, p)
    ensures GainsOwnNames(c, s, s')
  {
    hide HasMember, NamedBy, RateKey;
  }

  lemma GainsBoth(c: Config, s: State, s1: State, s2: State)
    requires GainsOwnNames(c, s, s1) && GainsOwnNames(c, s1, s2)
    ensures GainsOwnNames(c, s, s2)
  {
    hide HasMember, NamedBy, RateKey;
  }

  lemma TokenIsOwn(c: Config, s: State, now: nat)
    ensures NamedBy(c.instance, Token(c, s, now))
  {
    hide MemberName;
  }

  lemma AcquireGains(c: Config, s: State, now: nat)
    requires ValidConfig(c) && ValidKeys(c, s, now)
    ensures GainsOwnNames(c, s, AcquireInflight(c, s, now).0)
  {
    hide After, HasMember, MemberName, NamedBy, Inflight.AcquireScript, Inflight.WellFormed, RateWindow.WellFormed, Unissued;
    FreshToken(c, s, s.inflight.entries, now);
    TokenIsOwn(c, s, now);
    Inflight.AcquireEffect(s.inflight, now, c.slots.maxInflight, Token(c, s, now), c.slots.lease);
    assert forall p :: RateKey(AcquireInflight(c, s, now).0, p) == RateKey(s, p);
  }

  lemma ReleaseGains(c: Config, s: State, now: nat)
    requires ValidKeys(c, s, now)
    ensures GainsOwnNames(c, s, ReleaseInflight(s, now))
  {
    hide After, HasMember, NamedBy, Inflight.ReleaseScript, Inflight.WellFormed, RateWindow.WellFormed, Unissued;
    Inflight.ReleaseEffect(s.inflight, now, c.slots.lease);
    assert forall p :: RateKey(ReleaseInflight(s, now), p) == RateKey(s, p);
  }

  lemma RateGains(c: Config, s: State, player: string, now: nat)
    requires ValidConfig(c) && ValidKeys(c, s, now)
    ensures GainsOwnNames(c, s, AllowRate(c, s, player, now).0)
  {
    hide After, HasMember, MemberName, NamedBy, RateWindow.RateScript, Inflight.WellFormed, RateWindow.WellFormed, Unissued;
    var s' := AllowRate(c, s, player, now).0;
    var key := RateKey(s, player);
    FreshToken(c, s, key.entries, now);
    TokenIsOwn(c, s, now);
    RateWindow.RateEffect(key, now, c.rate.limit, Token(c, s, now), c.rate.window);
    forall p ensures OnlyAdds(c.instance, RateKey(s, p).entries, RateKey(s', p).entries) {
      assert p != player ==> RateKey(s', p) == RateKey(s, p);
    }
  }

  lemma AcquireAddsOne(c: Config, s: State, now: nat)
    requires ValidConfig(c) && ValidKeys(c, s, now)
    ensures var (s', got) := AcquireInflight(c, s, now);
            && ValidKeys(c, s', now)
            && (got <==> |Slots(s, now)| < c.slots.maxInflight)
            && Slots(s', now) == (if got then Slots(s, now) + [now + c.slots.lease] else Slots(s, now))
  {
    hide After, HasMember, MemberName, Inflight.AcquireScript, RateWindow.WellFormed, Unissued;
    var s' := AcquireInflight(c, s, now).0;
    FreshToken(c, s, s.inflight.entries, now);
    Inflight.AcquireEffect(s.inflight, now, c.slots.maxInflight, Token(c, s, now), c.slots.lease);
    UnissuedGrows(s.inflight.entries, s'.inflight.entries, c.instance, now, s.serial);
    forall p ensures RateWindow.WellFormed(RateKey(s', p), now, c.rate.window)
                     && Unissued(RateKey(s', p).entries, c.instance, s'.serial) {
      assert RateKey(s', p) == RateKey(s, p);
      UnissuedGrows(RateKey(s, p).entries, RateKey(s, p).entries, c.instance, now, s.serial);
    }
    AfterAfter(Scores(s.inflight.entries), now, now);
    AfterSnoc(Slots(s, now), now + c.slots.lease, now);
  }

  lemma FreshToken(c: Config, s: State, es: seq<Entry>, now: nat)
    requires Unissued(es, c.instance, s.serial)
    ensures !HasMember(es, Token(c, s, now))
  {
    hide HasMember, MemberName;
  }

  lemma ReleaseDropsOldest(c: Config, s: State, now: nat)
    requires ValidKeys(c, s, now)
    ensures ValidKeys(c, ReleaseInflight(s, now), now)
    ensures Slots(ReleaseInflight(s, now), now) == S.Tail(Slots(s, now))
  {
    hide After, HasMember, MemberName, Inflight.ReleaseScript, RateWindow.WellFormed, Unissued;
    var s' := ReleaseInflight(s, now);
    Inflight.ReleaseEffect(s.inflight, now, c.slots.lease);
    UnissuedKeeps(s.inflight.entries, s'.inflight.entries, c.instance, s.serial);
    assert forall p :: RateKey(s', p) == RateKey(s, p);
    var live := Slots(s, now);
    AfterIsSuffix(Scores(s.inflight.entries), now);
    AfterOfLater(S.Tail(live), now);
  }

  lemma RateAddsOne(c: Config, s: State, player: string, now: nat)
    requires ValidConfig(c) && ValidKeys(c, s, now)
    ensures var (s', ok) := AllowRate(c, s, player, now);
            && ValidKeys(c, s', now)
            && (ok <==> |Window(c, s, player, now)| < c.rate.limit)
            && Window(c, s', player, now) == (if ok then Window(c, s, player, now) + [now] else Window(c, s, player, now))
            && (forall p :: p != player ==> RateKey(s', p) == RateKey(s, p))
  {
    hide After, HasMember, MemberName, RateWindow.RateScript, Inflight.WellFormed, Unissued;
    var (s', ok) := AllowRate(c, s, player, now);
    var key := RateKey(s, player);
    FreshToken(c, s, key.entries, now);
    RateWindow.RateEffect(key, now, c.rate.limit, Token(c, s, now), c.rate.window);
    UnissuedGrows(s.inflight.entries, s.inflight.entries, c.instance, now, s.serial);
    UnissuedGrows(key.entries, RateKey(s', player).entries, c.instance, now, s.serial);
    forall p ensures RateWindow.WellFormed(RateKey(s', p), now, c.rate.window)
                     && Unissued(RateKey(s', p).entries, c.instance, s'.serial) {
      assert p != player ==> RateKey(s', p) == RateKey(s, p);
      if p != player { UnissuedGrows(RateKey(s, p).entries, RateKey(s, p).entries, c.instance, now, s.serial); }
    }
    var recent := Window(c, s, player, now);
    AfterAfter(Scores(key.entries), now - c.rate.window, now - c.rate.window);
    AfterSnoc(recent, now, now - c.rate.window);
    assert recent + [] == recent;
  }

  /** A closed breaker does not notice an Allow, and neither does one that refuses
      it or whose gateway refused it for its budget. Otherwise Allow makes it
      half-open, with a probe that starts now if and only if the request was
      admitted; outcomes and the opening instant stay. */
  ghost predicate BreakerAfterAllow(b: Circuit.Breaker, b': Circuit.Breaker, v: Verdict, now: nat) {
    if b.state.Closed? || !(v.Admitted? || v.InflightFull? || v.RateLimited?) then b' == b
    else
      && b'.state.HalfOpen? && b'.probeActive == v.Admitted? && b'.probeStartedAt == now
      && b'.openedAt == b.openedAt && b'.events == b.events
  }

  /** A sequential Allow admits exactly when every guard does, and otherwise names
      the first one that refuses. Admission adds one running slot and one window
      entry. A refusal leaves the number of slots, all windows and budgets, and no
      probe that it opened; after a rate refusal the oldest lease has been exchanged
      for a new one. */
  lemma AllowAccounting(c: Config, s: State, rawPlayer: string, estTokens: int, now: nat)
    requires ValidConfig(c) && ValidKeys(c, s, now)
    ensures var (s', v) := Allow(c, s, rawPlayer, estTokens, now);
            var player := TrimSpace(rawPlayer);
            && ValidKeys(c, s', now)
            && v == (if player == "" then PlayerRequired
                     else if estTokens < 0 then NegativeEstimate
                     else if !Circuit.Ready(c.circuit, s.breaker, now) then CircuitOpen
                     else if Budget.Current(Counters(s, player), Budget.DayOf(now), now) + estTokens > c.tokenBudget then BudgetExceeded
                     else if |Slots(s, now)| >= c.slots.maxInflight then InflightFull
                     else if |Window(c, s, player, now)| >= c.rate.limit then RateLimited
                     else Admitted)
            && (v.Admitted? ==>
                  && Slots(s', now) == Slots(s, now) + [now + c.slots.lease]
                  && Window(c, s', player, now) == Window(c, s, player, now) + [now])
            && (!v.Admitted? ==>
                  && |Slots(s', now)| == |Slots(s, now)|
                  && Window(c, s', player, now) == Window(c, s, player, now))
            && BreakerAfterAllow(s.breaker, s'.breaker, v, now)
            && (v.RateLimited? ==> Slots(s', now) == S.Tail(Slots(s, now) + [now + c.slots.lease]))
            && (!v.Admitted? && !v.RateLimited? ==> Slots(s', now) == Slots(s, now))
            && s'.budgets == s.budgets
            && (forall p :: p != player ==> RateKey(s', p) == RateKey(s, p))
  {
    hide ValidKeys, Slots, Window, RateKey, AcquireInflight, AllowRate, ReleaseInflight, TrimSpace;
    var player := TrimSpace(rawPlayer);
    if player != "" && estTokens >= 0 && Circuit.Ready(c.circuit, s.breaker, now) &&
       Budget.WithinBudget(Counters(s, player), c.tokenBudget, estTokens, now) {
      Circuit.ReadyPredictsAllow(c.circuit, s.breaker, now, now);
      var s1 := s.(breaker := Circuit.Allow(c.circuit, s.breaker, now, now).0);
      SameKeys(c, s, s1, now);
      AcquireAddsOne(c, s1, now);
      var (s2, got) := AcquireInflight(c, s1, now);
      AcquireFrame(c, s1, now);
      SameKeys(c, s2, CancelProbe(s2), now);
      if got {
        RateAddsOne(c, s2, player, now);
        RateFrame(c, s2, player, now);
        var (s3, admitted) := AllowRate(c, s2, player, now);
        ReleaseDropsOldest(c, s3, now);
        ReleaseFrame(c, s3, now);
        var s4 := ReleaseInflight(s3, now);
        SameKeys(c, s4, CancelProbe(s4), now);
      }
    }
  }

  /** States that differ in the breaker or the budgets only. */
  lemma SameKeys(c: Config, s: State, s': State, now: nat)
    requires s'.inflight == s.inflight && s'.rates == s.rates && s'.serial == s.serial
    ensures ValidKeys(c, s', now) <==> ValidKeys(c, s, now)
    ensures Slots(s', now) == Slots(s, now)
    ensures forall p :: RateKey(s', p) == RateKey(s, p) && Window(c, s', p, now) == Window(c, s, p, now)
  {
    hide Inflight.WellFormed, RateWindow.WellFormed, Unissued;
    assert forall p :: RateKey(s', p) == RateKey(s, p);
  }

  lemma AcquireFrame(c: Config, s: State, now: nat)
    ensures var s' := AcquireInflight(c, s, now).0;
            && s'.breaker == s.breaker && s'.budgets == s.budgets
            && (forall p :: RateKey(s', p) == RateKey(s, p) && Window(c, s', p, now) == Window(c, s, p, now))
  {
  }

  lemma RateFrame(c: Config, s: State, player: string, now: nat)
    ensures var s' := AllowRate(c, s, player, now).0;
            s'.breaker == s.breaker && s'.budgets == s.budgets && Slots(s', now) == Slots(s, now)
  {
  }

  lemma ReleaseFrame(c: Config, s: State, now: nat)
    ensures var s' := ReleaseInflight(s, now);
            && s'.breaker == s.breaker && s'.budgets == s.budgets
            && (forall p :: RateKey(s', p) == RateKey(s, p) && Window(c, s', p, now) == Window(c, s, p, now))
  {
  }

  /** What the day's counter of `player` reads. */
  function UsedToday(s: State, player: string, now: nat): nat {
    Budget.Current(Counters(s, player), Budget.DayOf(now), now)
  }

  /** A probe's success closes the breaker and its failure opens it from now on; a
      cancelled probe leaves room for another. An open breaker ignores settlements.
      A closed one takes success and failure as an outcome, keeping the last Window
      of them, and opens when too many of those failed; it ignores a cancellation. */
  ghost predicate BreakerAfterSettlement(c: Circuit.Config, b: Circuit.Breaker, b': Circuit.Breaker, st: Settlement, now: nat) {
    match b.state
    case HalfOpen =>
      && (st.Success? ==> b'.state.Closed? && b'.events == [] && !b'.probeActive)
      && (st.Failure? ==> b'.state.Open? && b'.openedAt == now && !b'.probeActive)
      && (st.Cancelled? ==> b' == b.(probeActive := false))
    case Open => b' == b
    case Closed =>
      if st.Cancelled? then b' == b
      else
        var outcomes := b.events + [st.Success?];
        if Circuit.Overloaded(c, outcomes) then b'.state.Open? && b'.openedAt == now && b'.events == []
        else b'.state.Closed? && b'.events == Circuit.Last(outcomes, c.window)
  }

  lemma BreakerSettles(c: Circuit.Config, b: Circuit.Breaker, st: Settlement, now: nat)
    requires Circuit.ValidConfig(c)
    ensures st.Cancelled? ==> BreakerAfterSettlement(c, b, Circuit.CancelProbe(b), st, now)
    ensures !st.Cancelled? ==> BreakerAfterSettlement(c, b, Circuit.Record(c, b, st.Success?, now), st, now)
  {
    hide Circuit.ThresholdReached, Circuit.Overloaded, Circuit.Last;
    Circuit.ReachedIffOverloaded(c, b.events + [st.Success?]);
  }

  /** Every settlement frees one slot, whatever other requests did meanwhile,
      except a Record for a blank player, which changes nothing. Windows stay, only
      a success adds tokens and only to its player's day, and the breaker learns
      which of the three it was. */
  lemma SettlementFreesOneSlot(c: Config, s: State, st: Settlement, now: nat)
    requires ValidKeys(c, s, now)
    ensures var s' := Settle(c, s, st, now);
            var blank := st.Success? && TrimSpace(st.player) == "";
            && ValidKeys(c, s', now)
            && (blank ==> s' == s)
            && (!blank ==> Slots(s', now) == S.Tail(Slots(s, now)))
            && (forall p :: RateKey(s', p) == RateKey(s, p))
            && (forall p :: UsedToday(s', p, now) == UsedToday(s, p, now) +
                  (if st.Success? && st.usedTokens > 0 && p != "" && p == TrimSpace(st.player) then st.usedTokens else 0))
            && (!blank && Circuit.ValidConfig(c.circuit) ==> BreakerAfterSettlement(c.circuit, s.breaker, s'.breaker, st, now))
  {
    hide ValidKeys, Slots, Window, RateKey, ReleaseInflight, TrimSpace, Circuit.Record, Circuit.CancelProbe, BreakerAfterSettlement,
      Circuit.ValidConfig;
    if Circuit.ValidConfig(c.circuit) { BreakerSettles(c.circuit, s.breaker, st, now); }
    ReleaseDropsOldest(c, s, now);
    ReleaseKeys(s, now);
    ReleaseFrame(c, s, now);
    SameKeys(c, s, CancelProbe(s), now);
    ReleaseDropsOldest(c, CancelProbe(s), now);
    ReleaseFrame(c, CancelProbe(s), now);
    var s1 := ReleaseInflight(s, now);
    SameKeys(c, s1, RecordOutcome(c, s1, st.Success?, now), now);
    if st.Success? && TrimSpace(st.player) != "" {
      SameKeys(c, s1, RecordTokens(RecordOutcome(c, s1, true, now), TrimSpace(st.player), st.usedTokens, now), now);
    }
  }

  lemma ReleaseKeys(s: State, now: nat)
    ensures ReleaseInflight(s, now).rates == s.rates && ReleaseInflight(s, now).serial == s.serial
  {
  }

  /** A call adds members of this gateway's naming only, so other gateways' next
      names stay unused. */
  lemma AllowGains(c: Config, s: State, rawPlayer: string, estTokens: int, now: nat)
    requires ValidConfig(c) && ValidKeys(c, s, now)
    ensures GainsOwnNames(c, s, Allow(c, s, rawPlayer, estTokens, now).0)
  {
    hide ValidKeys, Slots, Window, RateKey, AcquireInflight, AllowRate, ReleaseInflight, TrimSpace, GainsOwnNames;
    var player := TrimSpace(rawPlayer);
    GainsNothing(c, s, s);
    var s1 := s.(breaker := Circuit.Allow(c.circuit, s.breaker, now, now).0);
    SameKeys(c, s, s1, now);
    GainsNothing(c, s, s1);
    var s2 := AcquireInflight(c, s1, now).0;
    AcquireAddsOne(c, s1, now);
    AcquireGains(c, s1, now);
    GainsBoth(c, s, s1, s2);
    SameKeys(c, s2, CancelProbe(s2), now);
    GainsNothing(c, s2, CancelProbe(s2));
    GainsBoth(c, s, s2, CancelProbe(s2));
    var s3 := AllowRate(c, s2, player, now).0;
    RateAddsOne(c, s2, player, now);
    RateGains(c, s2, player, now);
    GainsBoth(c, s, s2, s3);
    var s4 := ReleaseInflight(s3, now);
    ReleaseGains(c, s3, now);
    GainsBoth(c, s, s3, s4);
    SameKeys(c, s4, CancelProbe(s4), now);
    GainsNothing(c, s4, CancelProbe(s4));
    GainsBoth(c, s, s4, CancelProbe(s4));
  }

  lemma SettleGains(c: Config, s: State, st: Settlement, now: nat)
    requires ValidKeys(c, s, now)
    ensures GainsOwnNames(c, s, Settle(c, s, st, now)) && Settle(c, s, st, now).serial == s.serial
  {
    hide ValidKeys, Slots, Window, RateKey, ReleaseInflight, TrimSpace, GainsOwnNames;
    GainsNothing(c, s, s);
    var s0 := if st.Cancelled? then CancelProbe(s) else s;
    SameKeys(c, s, s0, now);
    GainsNothing(c, s, s0);
    var s1 := ReleaseInflight(s0, now);
    ReleaseGains(c, s0, now);
    ReleaseKeys(s0, now);
    GainsBoth(c, s, s0, s1);
    var s2 := Settle(c, s, st, now);
    if !(st.Success? && TrimSpace(st.player) == "") {
      SameKeys(c, s1, s2, now);
      GainsNothing(c, s1, s2);
      GainsBoth(c, s, s1, s2);
    }
  }

  // ---- the start, and later instants ----

  const START := State(ABSENT, map[], map[], Circuit.FRESH, 0)

  lemma ValidKeysLater(c: Config, s: State, now: nat, later: nat)
    requires ValidKeys(c, s, now) && now <= later
    ensures ValidKeys(c, s, later)
  {
    hide RateKey, Unissued, Ascending;
  }

  lemma StartValid(c: Config)
    ensures ValidKeys(c, START, 0)
  {
  }
}
