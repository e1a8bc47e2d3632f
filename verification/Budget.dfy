/** The daily token budget of one player: a check that reads the day's counter, a
    record that adds to it later, and any number of requests in between. */
module Budget {

  const DAY_MS: nat := 86_400_000

  /** The UTC day that names the counter's key. */
  function DayOf(ms: nat): nat { ms / DAY_MS }

  function UntilNextUtcDay(ms: nat): (d: nat)
    ensures 1 <= d <= DAY_MS && ms + d == (DayOf(ms) + 1) * DAY_MS
  {
    (DayOf(ms) + 1) * DAY_MS - ms
  }

  datatype Counter = Counter(value: nat, expireAt: nat)

  /** GET: a missing or expired counter reads as zero. */
  function Current(counters: map<nat, Counter>, day: nat, now: nat): nat {
    if day in counters && now <= counters[day].expireAt then counters[day].value else 0
  }

  /** INCRBY and PEXPIRE. */
  function RecordScript(counters: map<nat, Counter>, day: nat, amount: nat, ttl: nat, now: nat): map<nat, Counter> {
    counters[day := Counter(Current(counters, day, now) + amount, now + ttl)]
  }

  /** The code reads the clock once for the key and once for the TTL, and Redis
      runs the script later still; zero or negative usage runs no script. */
  function RecordTokens(counters: map<nat, Counter>, used: int, keyAt: nat, ttlAt: nat, now: nat): map<nat, Counter> {
    if used <= 0 then counters
    else RecordScript(counters, DayOf(keyAt), used, UntilNextUtcDay(ttlAt), now)
  }

  predicate WithinBudget(counters: map<nat, Counter>, budget: nat, estTokens: nat, now: nat) {
    Current(counters, DayOf(now), now) + estTokens <= budget
  }

  // ---- runs of many requests of the player ----

  datatype Event =
    | Check(req: nat, estTokens: nat, at: nat)
    | Settle(req: nat, used: int, keyAt: nat, ttlAt: nat, at: nat)  // at: when Redis runs it

  /** `open` maps every request that passed the check and has not settled to the
      instant of its check; `recorded` adds up what was recorded under each day. */
  datatype Ledger = Ledger(counters: map<nat, Counter>, open: map<nat, nat>, recorded: map<nat, nat>, clock: nat)

  const START := Ledger(map[], map[], map[], 0)

  function Recorded(s: Ledger, day: nat): nat {
    if day in s.recorded then s.recorded[day] else 0
  }

  function Step(budget: nat, s: Ledger, e: Event): Ledger {
    match e
    case Check(r, est, at) =>
      s.(open := if WithinBudget(s.counters, budget, est, at) then s.open[r := at] else s.open, clock := at)
    case Settle(r, used, keyAt, ttlAt, at) =>
      Ledger(RecordTokens(s.counters, used, keyAt, ttlAt, at), s.open - {r},
             if used <= 0 then s.recorded else s.recorded[DayOf(keyAt) := Recorded(s, DayOf(keyAt)) + used], at)
  }

  function Run(budget: nat, es: seq<Event>): Ledger {
    if es == [] then START else Step(budget, Run(budget, es[..|es| - 1]), es[|es| - 1])
  }

  /** The clock does not run backwards, a request checks once and settles after
      its check, and no request uses more than `maxUse` tokens. */
  ghost predicate Possible(s: Ledger, e: Event, maxUse: nat) {
    s.clock <= e.at &&
    match e
    case Check(r, _, _) => r !in s.open
    case Settle(r, used, keyAt, ttlAt, at) => r in s.open && s.open[r] <= keyAt <= ttlAt <= at && used <= maxUse
  }

  /** Every event is possible and at most `parallel` requests are ever open. */
  ghost predicate PossibleRun(budget: nat, es: seq<Event>, maxUse: nat, parallel: nat) {
    es == [] ||
    var before := Run(budget, es[..|es| - 1]);
    && PossibleRun(budget, es[..|es| - 1], maxUse, parallel)
    && Possible(before, es[|es| - 1], maxUse)
    && |Step(budget, before, es[|es| - 1]).open| <= parallel
  }

  // ---- the counter is exact for as long as its day lasts ----

  /** After its day, a counter may have expired and started again. */
  ghost predicate Exact(s: Ledger, day: nat) {
    && (day in s.counters ==> s.counters[day].value <= Recorded(s, day))
    && (s.clock < (day + 1) * DAY_MS ==>
          if day in s.counters
          then s.counters[day].value == Recorded(s, day) && (day + 1) * DAY_MS <= s.counters[day].expireAt
          else Recorded(s, day) == 0)
  }

  lemma StepKeepsExact(budget: nat, s: Ledger, e: Event, maxUse: nat, day: nat)
    requires Exact(s, day) && Possible(s, e, maxUse)
    ensures Exact(Step(budget, s, e), day)
  {
    if e.Settle? && DayOf(e.keyAt) == day {
      assert DayOf(e.keyAt) <= DayOf(e.ttlAt);
      assert e.ttlAt + UntilNextUtcDay(e.ttlAt) == (DayOf(e.ttlAt) + 1) * DAY_MS;
    }
  }

  /** No counter outlives the last record by more than a day. */
  ghost predicate Expiring(s: Ledger) {
    forall day :: day in s.counters ==> s.counters[day].expireAt <= s.clock + DAY_MS
  }

  lemma {:induction false} RunKeepsExpiring(budget: nat, es: seq<Event>, maxUse: nat, parallel: nat)
    requires PossibleRun(budget, es, maxUse, parallel)
    ensures Expiring(Run(budget, es))
  {
    if es != [] { RunKeepsExpiring(budget, es[..|es| - 1], maxUse, parallel); }
  }

  /** A day after the last event every counter reads zero again. */
  lemma CountersExpire(budget: nat, es: seq<Event>, maxUse: nat, parallel: nat, day: nat, now: nat)
    requires PossibleRun(budget, es, maxUse, parallel) && Run(budget, es).clock + DAY_MS < now
    ensures Current(Run(budget, es).counters, day, now) == 0
  {
    hide Run, PossibleRun;
    RunKeepsExpiring(budget, es, maxUse, parallel);
  }

  // ---- the day's total stays within the budget plus what was in flight ----

  /** The open requests that can still record under `day`. */
  ghost function OpenFor(s: Ledger, day: nat): set<nat> {
    set r | r in s.open && DayOf(s.open[r]) <= day
  }

  ghost predicate Bounded(s: Ledger, day: nat, budget: nat, maxUse: nat, parallel: nat) {
    && (Recorded(s, day) > 0 ==> day * DAY_MS <= s.clock)
    && (Recorded(s, day) > budget ==> Recorded(s, day) + |OpenFor(s, day)| * maxUse <= budget + parallel * maxUse)
  }

  lemma CheckKeepsBounded(budget: nat, s: Ledger, e: Event, maxUse: nat, parallel: nat, day: nat)
    requires Exact(s, day) && Bounded(s, day, budget, maxUse, parallel) && Possible(s, e, maxUse) && e.Check?
    ensures Bounded(Step(budget, s, e), day, budget, maxUse, parallel)
  {
    var s' := Step(budget, s, e);
    if Recorded(s, day) > budget {
      assert day <= DayOf(e.at);
      assert OpenFor(s', day) == OpenFor(s, day);
    }
  }

  lemma {:induction false} OneFewer(n: nat, n': nat, unit: nat)
    requires n' + 1 <= n
    ensures n' * unit + unit <= n * unit
  {
    if n' + 1 < n { OneFewer(n - 1, n', unit); }
  }

  lemma SettleKeepsBounded(budget: nat, s: Ledger, e: Event, maxUse: nat, parallel: nat, day: nat)
    requires Bounded(s, day, budget, maxUse, parallel) && Possible(s, e, maxUse) && e.Settle?
    requires |s.open| <= parallel
    ensures Bounded(Step(budget, s, e), day, budget, maxUse, parallel)
  {
    var s' := Step(budget, s, e);
    var before, after := OpenFor(s, day), OpenFor(s', day);
    assert after == before - {e.req};
    if e.used > 0 && DayOf(e.keyAt) == day {
      assert e.req in before;
      assert before <= s.open.Keys;
      SubsetSize(before, s.open.Keys);
      OneFewer(|before|, |after|, maxUse);
      OneFewer(parallel, |after|, maxUse);
    } else {
      SubsetSize(after, before);
      if |after| < |before| { OneFewer(|before|, |after|, maxUse); }
    }
  }

  lemma {:induction false} SubsetSize(a: set<nat>, b: set<nat>)
    requires a <= b
    ensures |a| <= |b|
  {
    if a != {} {
      var x :| x in a;
      SubsetSize(a - {x}, b - {x});
    }
  }

  lemma {:induction false} RunInvariant(budget: nat, es: seq<Event>, maxUse: nat, parallel: nat, day: nat)
    requires PossibleRun(budget, es, maxUse, parallel)
    ensures Exact(Run(budget, es), day) && Bounded(Run(budget, es), day, budget, maxUse, parallel)
    ensures |Run(budget, es).open| <= parallel
  {
    hide Exact, Bounded, Step;
    if es == [] {
      StartInvariant(budget, maxUse, parallel, day);
    } else {
      var s, e := Run(budget, es[..|es| - 1]), es[|es| - 1];
      RunInvariant(budget, es[..|es| - 1], maxUse, parallel, day);
      StepKeepsExact(budget, s, e, maxUse, day);
      if e.Check? {
        CheckKeepsBounded(budget, s, e, maxUse, parallel, day);
      } else {
        SettleKeepsBounded(budget, s, e, maxUse, parallel, day);
      }
    }
  }

  lemma StartInvariant(budget: nat, maxUse: nat, parallel: nat, day: nat)
    ensures Exact(START, day) && Bounded(START, day, budget, maxUse, parallel)
  {
  }

  /** In every interleaving, what is recorded under a UTC day, and so what its
      counter ever reads, exceeds the budget by no more than the requests in flight
      can use. */
  lemma {:induction false} DailyTotalBounded(budget: nat, es: seq<Event>, maxUse: nat, parallel: nat, day: nat)
    requires PossibleRun(budget, es, maxUse, parallel)
    ensures Recorded(Run(budget, es), day) <= budget + parallel * maxUse
    ensures forall now :: Current(Run(budget, es).counters, day, now) <= budget + parallel * maxUse
  {
    hide Run, PossibleRun;
    RunInvariant(budget, es, maxUse, parallel, day);
    var n := |OpenFor(Run(budget, es), day)|;
    assert 0 <= n * maxUse;
    assert 0 <= parallel * maxUse;
  }

  /** While a day lasts, its counter reads exactly what was recorded under it,
      because no TTL ends before the day does. */
  lemma {:induction false} CounterEqualsRecorded(budget: nat, es: seq<Event>, maxUse: nat, parallel: nat, now: nat)
    requires PossibleRun(budget, es, maxUse, parallel) && Run(budget, es).clock <= now
    ensures Current(Run(budget, es).counters, DayOf(now), now) == Recorded(Run(budget, es), DayOf(now))
  {
    hide Run, PossibleRun, Bounded;
    RunInvariant(budget, es, maxUse, parallel, DayOf(now));
    assert now < (DayOf(now) + 1) * DAY_MS;
  }
}
