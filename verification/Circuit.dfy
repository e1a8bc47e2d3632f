/** The local circuit breaker: closed, half-open with one probe, open. */
module Circuit {
  import opened Options

  datatype CircuitState = Closed | HalfOpen | Open

  datatype Config = Config(window: nat, minSamples: nat, failureThreshold: real, openDuration: nat)

  /** What newCircuitBreaker accepts, after it filled in the defaults. */
  predicate ValidConfig(c: Config) {
    1 <= c.minSamples <= c.window && 0.0 < c.failureThreshold <= 1.0 && 1 <= c.openDuration
  }

  const DEFAULT_WINDOW: nat := 20
  const DEFAULT_MIN_SAMPLES: nat := 5
  const DEFAULT_FAILURE_THRESHOLD := 0.5
  const DEFAULT_OPEN_DURATION: nat := 30_000

  /** newCircuitBreaker's defaults for zero fields and its checks of the rest; a
      result is None where the code returns an error. */
  function NewConfig(window: int, minSamples: int, failureThreshold: real, openDuration: int): (r: Option<Config>)
    ensures r.Some? ==>
              && ValidConfig(r.value)
              && r.value.window == (if window == 0 then DEFAULT_WINDOW else window)
              && r.value.minSamples == (if minSamples == 0 then DEFAULT_MIN_SAMPLES else minSamples)
              && r.value.failureThreshold == (if failureThreshold == 0.0 then DEFAULT_FAILURE_THRESHOLD else failureThreshold)
              && r.value.openDuration == (if openDuration == 0 then DEFAULT_OPEN_DURATION else openDuration)
    ensures r.None? <==>
            || window < 0 || minSamples < 0 || failureThreshold < 0.0 || failureThreshold > 1.0 || openDuration < 0
            || (if window == 0 then DEFAULT_WINDOW else window) < (if minSamples == 0 then DEFAULT_MIN_SAMPLES else minSamples)
  {
    var w := if window == 0 then DEFAULT_WINDOW else window;
    var m := if minSamples == 0 then DEFAULT_MIN_SAMPLES else minSamples;
    var t := if failureThreshold == 0.0 then DEFAULT_FAILURE_THRESHOLD else failureThreshold;
    var d := if openDuration == 0 then DEFAULT_OPEN_DURATION else openDuration;
    if w <= 0 || m <= 0 || m > w || t <= 0.0 || t > 1.0 || d <= 0 then None else Some(Config(w, m, t, d))
  }

  datatype Breaker = Breaker(
    state: CircuitState, openedAt: nat, probeActive: bool, probeStartedAt: nat, events: seq<bool>)

  const FRESH := Breaker(Closed, 0, false, 0, [])

  // ---- one call ----

  predicate Ready(c: Config, b: Breaker, now: nat) {
    match b.state
    case Closed => true
    case Open => now - b.openedAt >= c.openDuration
    case HalfOpen => !b.probeActive || now - b.probeStartedAt >= c.openDuration
  }

  /** The code reads the clock for the check and again for the probe's start. */
  function Allow(c: Config, b: Breaker, checkAt: nat, startAt: nat): (Breaker, bool) {
    if b.state.Closed? then (b, true)
    else if !Ready(c, b, checkAt) then (b, false)
    else (b.(state := HalfOpen, probeActive := true, probeStartedAt := startAt), true)
  }

  function CancelProbe(b: Breaker): Breaker {
    if b.state.HalfOpen? then b.(probeActive := false) else b
  }

  function OpenLocked(b: Breaker, now: nat): Breaker {
    b.(state := Open, openedAt := now, probeActive := false, events := [])
  }

  function CloseLocked(b: Breaker): Breaker {
    b.(state := Closed, probeActive := false, events := [])
  }

  function Failures(events: seq<bool>): (n: nat)
    ensures n <= |events|
  {
    if events == [] then 0
    else Failures(events[..|events| - 1]) + (if events[|events| - 1] then 0 else 1)
  }

  function Last<T>(xs: seq<T>, n: nat): (r: seq<T>)
    ensures |r| == (if |xs| <= n then |xs| else n) && r == xs[|xs| - |r|..]
  {
    if |xs| <= n then xs else xs[|xs| - n..]
  }

  /** At least MinSamples outcomes, and failures make up the threshold or more. */
  predicate ThresholdReached(c: Config, outcomes: seq<bool>) {
    |outcomes| >= c.minSamples && |outcomes| > 0 &&
    Failures(outcomes) as real / |outcomes| as real >= c.failureThreshold
  }

  function Record(c: Config, b: Breaker, success: bool, now: nat): Breaker {
    match b.state
    case HalfOpen => if success then CloseLocked(b) else OpenLocked(b, now)
    case Open => b
    case Closed =>
      var events := Last(b.events + [success], c.window);
      if ThresholdReached(c, events) then OpenLocked(b, now) else b.(events := events)
  }

  lemma Trimmed(xs: seq<bool>, n: nat)
    ensures Last(xs, n) == if |xs| > n then xs[|xs| - n..] else xs
  {
  }

  class CircuitBreaker {
    const cfg: Config
    var state: CircuitState
    var openedAt: nat
    var probeActive: bool
    var probeStartedAt: nat
    var events: seq<bool>

    function Value(): Breaker
      reads this
    {
      Breaker(state, openedAt, probeActive, probeStartedAt, events)
    }

    constructor (c: Config)
      requires ValidConfig(c)
      ensures cfg == c && Value() == FRESH
    {
      cfg, state, openedAt, probeActive, probeStartedAt, events := c, Closed, 0, false, 0, [];
    }

    method IsReady(now: nat) returns (ok: bool)
      ensures ok == Ready(cfg, Value(), now)
    {
      match state
      case Closed => ok := true;
      case Open => ok := now - openedAt >= cfg.openDuration;
      case HalfOpen => ok := !probeActive || now - probeStartedAt >= cfg.openDuration;
    }

    method Admit(checkAt: nat, startAt: nat) returns (ok: bool)
      modifies this
      ensures (Value(), ok) == Allow(cfg, old(Value()), checkAt, startAt)
    {
      if state == Closed { return true; }
      if state == Open {
        if checkAt - openedAt < cfg.openDuration { return false; }
        state, probeActive := HalfOpen, false;
      }
      if probeActive && checkAt - probeStartedAt < cfg.openDuration { return false; }
      probeActive, probeStartedAt := true, startAt;
      return true;
    }

    method Cancel()
      modifies this
      ensures Value() == CancelProbe(old(Value()))
    {
      if state == HalfOpen { probeActive := false; }
    }

    method Report(success: bool, now: nat)
      requires ValidConfig(cfg)
      modifies this
      ensures Value() == Record(cfg, old(Value()), success, now)
    {
      hide Failures, ThresholdReached, Last;
      match state
      case HalfOpen =>
        probeActive := false;
        if success {
          state, events := Closed, [];
        } else {
          state, openedAt, events := Open, now, [];
        }
      case Open =>
      case Closed =>
        events := events + [success];
        if |events| > cfg.window { events := events[|events| - cfg.window..]; }
        Trimmed(old(events) + [success], cfg.window);
        var reached := FailureRatioReached();
        if reached {
          state, openedAt, probeActive, events := Open, now, false, [];
        }
    }

    method FailureRatioReached() returns (reached: bool)
      requires ValidConfig(cfg)
      ensures reached <==> ThresholdReached(cfg, events)
    {
      hide Failures;
      if |events| < cfg.minSamples { return false; }
      var failures := CountFailures(events);
      return failures as real / |events| as real >= cfg.failureThreshold;
    }
  }

  method CountFailures(events: seq<bool>) returns (failures: nat)
    ensures failures == Failures(events) && failures == multiset(events)[false]
  {
    FailuresCounted(events);
    failures := 0;
    for i := 0 to |events|
      invariant failures == Failures(events[..i])
    {
      assert events[..i + 1][..i] == events[..i];
      if !events[i] { failures := failures + 1; }
    }
    assert events[..|events|] == events;
  }

  lemma {:induction false} FailuresCounted(events: seq<bool>)
    ensures Failures(events) == multiset(events)[false]
  {
    if events != [] {
      var n := |events| - 1;
      FailuresCounted(events[..n]);
      assert events == events[..n] + [events[n]];
    }
  }

  // ---- runs ----

  datatype Op =
    | Admit(at: nat, startAt: nat)
    | Cancel(at: nat)
    | Report(success: bool, at: nat)
  {
    function End(): nat { if Admit? then startAt else at }
  }

  function Step(c: Config, b: Breaker, op: Op): Breaker {
    match op
    case Admit(at, startAt) => Allow(c, b, at, startAt).0
    case Cancel(_) => CancelProbe(b)
    case Report(success, at) => Record(c, b, success, at)
  }

  predicate Admitted(c: Config, b: Breaker, op: Op) {
    op.Admit? && Allow(c, b, op.at, op.startAt).1
  }

  function RunFrom(c: Config, b: Breaker, ops: seq<Op>): Breaker {
    if ops == [] then b else Step(c, RunFrom(c, b, ops[..|ops| - 1]), ops[|ops| - 1])
  }

  ghost predicate InOrder(ops: seq<Op>, from: nat) {
    ops == [] ||
    var n := |ops| - 1;
    && InOrder(ops[..n], from)
    && (if n == 0 then from else ops[n - 1].End()) <= ops[n].at <= ops[n].End()
  }

  /** The outcomes reported since the breaker was created or last closed. */
  ghost function SinceClose(c: Config, ops: seq<Op>): seq<bool> {
    if ops == [] then []
    else
      var before, op := RunFrom(c, FRESH, ops[..|ops| - 1]), ops[|ops| - 1];
      if !before.state.Closed? || !Step(c, before, op).state.Closed? then []
      else SinceClose(c, ops[..|ops| - 1]) + (if op.Report? then [op.success] else [])
  }

  /** Too many of the last Window outcomes failed: there are MinSamples of them and
      the failures among them are at least the threshold's share. */
  ghost predicate Overloaded(c: Config, outcomes: seq<bool>) {
    var recent := Last(outcomes, c.window);
    |recent| >= c.minSamples && multiset(recent)[false] as real >= c.failureThreshold * |recent| as real
  }

  lemma ReachedIffOverloaded(c: Config, outcomes: seq<bool>)
    requires ValidConfig(c)
    ensures ThresholdReached(c, Last(outcomes, c.window)) <==> Overloaded(c, outcomes)
  {
    hide Failures, Last;
    var recent := Last(outcomes, c.window);
    FailuresCounted(recent);
    if recent != [] { RatioIffShare(Failures(recent) as real, |recent| as real, c.failureThreshold); }
  }

  lemma RatioIffShare(part: real, whole: real, share: real)
    requires whole > 0.0
    ensures part / whole >= share <==> part >= share * whole
  {
    var ratio := part / whole;
    assert part == ratio * whole;
    if ratio >= share { assert (ratio - share) * whole >= 0.0; } else { assert (share - ratio) * whole > 0.0; }
  }

  ghost predicate Sound(c: Config, b: Breaker, since: seq<bool>) {
    && (b.events != [] ==> b.state.Closed?)
    && (b.probeActive ==> b.state.HalfOpen?)
    && (b.state.Closed? ==> b.events == Last(since, c.window) && !Overloaded(c, since))
  }

  lemma LastSnoc<T>(xs: seq<T>, x: T, n: nat)
    requires 1 <= n
    ensures Last(Last(xs, n) + [x], n) == Last(xs + [x], n)
  {
  }

  /** In every reachable state only a closed breaker has events and only a
      half-open one a probe; while closed, the events are exactly the last Window
      outcomes since creation or the last close, and their failure ratio is below
      the threshold whenever there are MinSamples of them. */
  lemma {:induction false} EveryStateSound(c: Config, ops: seq<Op>)
    requires ValidConfig(c)
    ensures Sound(c, RunFrom(c, FRESH, ops), SinceClose(c, ops))
  {
    hide Step, Sound;
    if ops == [] { FreshSound(c); }
    if ops != [] {
      var prefix, op := ops[..|ops| - 1], ops[|ops| - 1];
      EveryStateSound(c, prefix);
      StepKeepsSound(c, RunFrom(c, FRESH, prefix), SinceClose(c, prefix), op);
    }
  }

  lemma FreshSound(c: Config)
    requires ValidConfig(c)
    ensures Sound(c, FRESH, [])
  {
  }

  lemma StepKeepsSound(c: Config, b: Breaker, since: seq<bool>, op: Op)
    requires ValidConfig(c) && Sound(c, b, since)
    ensures Sound(c, Step(c, b, op),
                  if !b.state.Closed? || !Step(c, b, op).state.Closed? then []
                  else since + (if op.Report? then [op.success] else []))
  {
    hide Failures, ThresholdReached, Overloaded, Last;
    assert since + [] == since;
    FreshSound(c);
    if op.Report? {
      LastSnoc(since, op.success, c.window);
      ReachedIffOverloaded(c, since + [op.success]);
    }
  }

  /** After every run, a report leaves the breaker closed exactly when it was a
      successful probe's, or when it was closed and the last Window outcomes with
      this one stay below the threshold; a report that opens it starts the clock. */
  lemma {:induction false} ReportDecides(c: Config, ops: seq<Op>, success: bool, at: nat)
    requires ValidConfig(c)
    ensures var b := RunFrom(c, FRESH, ops);
            var b' := Step(c, b, Report(success, at));
            && (b'.state.Closed? <==>
                  || (b.state.HalfOpen? && success)
                  || (b.state.Closed? && !Overloaded(c, SinceClose(c, ops) + [success])))
            && (b'.state.Open? && !b.state.Open? ==> b'.openedAt == at)
            && !b'.state.HalfOpen?
  {
    hide Failures, RunFrom, SinceClose, ThresholdReached, Overloaded, Last;
    EveryStateSound(c, ops);
    LastSnoc(SinceClose(c, ops), success, c.window);
    ReachedIffOverloaded(c, SinceClose(c, ops) + [success]);
  }

  /** A breaker that has seen no failure since it last closed is not opened by
      another success, whatever the threshold. */
  lemma {:induction false} SuccessesNeverOpen(c: Config, ops: seq<Op>, at: nat)
    requires ValidConfig(c) && RunFrom(c, FRESH, ops).state.Closed? && false !in SinceClose(c, ops)
    ensures Step(c, RunFrom(c, FRESH, ops), Report(true, at)).state.Closed?
  {
    hide RunFrom, SinceClose, Step, Last;
    ReportDecides(c, ops, true, at);
    var recent := Last(SinceClose(c, ops) + [true], c.window);
    NoFailures(recent);
    if recent != [] { assert c.failureThreshold * |recent| as real > 0.0; }
  }

  lemma NoFailures(xs: seq<bool>)
    requires false !in xs
    ensures multiset(xs)[false] == 0
  {
    assert false !in multiset(xs);
  }

  /** Failures in a row open a fresh breaker with the MinSamples-th, and not before,
      whatever the threshold. */
  lemma {:induction false} MinSamplesFailuresOpen(c: Config, ops: seq<Op>)
    requires ValidConfig(c) && |ops| <= c.minSamples
    requires forall i :: 0 <= i < |ops| ==> ops[i].Report? && !ops[i].success
    ensures RunFrom(c, FRESH, ops).state == (if |ops| == c.minSamples then Open else Closed)
    ensures |ops| < c.minSamples ==> SinceClose(c, ops) == seq(|ops|, _ => false)
  {
    hide Step, Overloaded;
    if ops != [] {
      var n := |ops| - 1;
      MinSamplesFailuresOpen(c, ops[..n]);
      ReportDecides(c, ops[..n], false, ops[n].at);
      assert seq(n, _ => false) + [false] == seq(n + 1, _ => false);
      FailuresOverload(c, n + 1);
    }
  }

  lemma FailuresOverload(c: Config, n: nat)
    requires ValidConfig(c) && 1 <= n <= c.minSamples
    ensures Overloaded(c, seq(n, _ => false)) <==> n == c.minSamples
  {
    var outcomes := seq(n, _ => false);
    assert Last(outcomes, c.window) == outcomes;
    OnlyFailures(outcomes);
    ShareBelowWhole(c.failureThreshold, n as real);
  }

  lemma ShareBelowWhole(share: real, whole: real)
    requires share <= 1.0 && 0.0 <= whole
    ensures share * whole <= whole
  {
    assert (1.0 - share) * whole >= 0.0;
  }

  lemma {:induction false} OnlyFailures(xs: seq<bool>)
    requires true !in xs
    ensures multiset(xs)[false] == |xs|
  {
    if xs != [] {
      OnlyFailures(xs[..|xs| - 1]);
      assert xs == xs[..|xs| - 1] + [xs[|xs| - 1]];
      assert !xs[|xs| - 1];
    }
  }

  /** A cancelled probe lets the next request in at once, as the new probe. */
  lemma CancelledProbeIsReplaced(c: Config, b: Breaker, cancelAt: nat, now: nat, startAt: nat)
    requires b.state.HalfOpen?
    ensures var b' := Step(c, b, Cancel(cancelAt));
            && Ready(c, b', now) && Admitted(c, b', Admit(now, startAt))
            && Step(c, b', Admit(now, startAt)) == b.(probeActive := true, probeStartedAt := startAt)
  {
  }

  // ---- timing ----

  /** Checking first is never contradicted by the admission at the same instant. */
  lemma ReadyPredictsAllow(c: Config, b: Breaker, now: nat, startAt: nat)
    ensures Ready(c, b, now) <==> Allow(c, b, now, startAt).1
  {
  }

  /** While open, nothing that stragglers report or cancel changes the breaker,
      and every admission that comes before OpenDuration has passed is refused. */
  lemma {:induction false} FrozenWhileOpen(c: Config, b: Breaker, ops: seq<Op>)
    requires b.state.Open? && forall i :: 0 <= i < |ops| && ops[i].Admit? ==> ops[i].at < b.openedAt + c.openDuration
    ensures RunFrom(c, b, ops) == b
    ensures forall i :: 0 <= i < |ops| ==> !Admitted(c, RunFrom(c, b, ops[..i]), ops[i])
  {
    if ops != [] {
      var n := |ops| - 1;
      FrozenWhileOpen(c, b, ops[..n]);
      forall i | 0 <= i < |ops| ensures !Admitted(c, RunFrom(c, b, ops[..i]), ops[i]) {
        if i < n {
          assert ops[..n][..i] == ops[..i] && ops[..n][i] == ops[i];
          assert !Admitted(c, RunFrom(c, b, ops[..n][..i]), ops[..n][i]);
        }
      }
    }
  }

  /** A half-open probe that nobody resolves stays active, and later probes only
      move its start forward. */
  lemma {:induction false} ProbeHolds(c: Config, b: Breaker, ops: seq<Op>, from: nat)
    requires b.state.HalfOpen? && b.probeActive && b.probeStartedAt == from
    requires InOrder(ops, from) && forall i :: 0 <= i < |ops| ==> ops[i].Admit?
    ensures var b' := RunFrom(c, b, ops); b'.state.HalfOpen? && b'.probeActive && from <= b'.probeStartedAt
    ensures forall i :: 0 <= i < |ops| ==> from <= ops[i].at
  {
    if ops != [] {
      var n := |ops| - 1;
      ProbeHolds(c, b, ops[..n], from);
      if n > 0 { assert from <= ops[..n][n - 1].at <= ops[..n][n - 1].End() by { LastInOrder(ops[..n], from); } }
      forall i | 0 <= i < |ops| ensures from <= ops[i].at {
        if i < n { assert ops[..n][i] == ops[i]; }
      }
    }
  }

  lemma LastInOrder(ops: seq<Op>, from: nat)
    requires InOrder(ops, from) && ops != []
    ensures ops[|ops| - 1].at <= ops[|ops| - 1].End()
  {
  }

  /** Two half-open admissions with no report or cancellation between them are at
      least OpenDuration apart. */
  lemma {:induction false} ProbesSpaced(c: Config, b: Breaker, first: Op, between: seq<Op>, second: Op)
    requires ValidConfig(c) && Admitted(c, b, first) && Step(c, b, first).state.HalfOpen?
    requires InOrder(between, first.startAt) && forall i :: 0 <= i < |between| ==> between[i].Admit?
    requires Admitted(c, RunFrom(c, Step(c, b, first), between), second)
    ensures second.at >= first.startAt + c.openDuration
  {
    ProbeHolds(c, Step(c, b, first), between, first.startAt);
  }

  ghost predicate NotInFuture(b: Breaker, now: nat) {
    b.openedAt <= now && b.probeStartedAt <= now
  }

  lemma {:induction false} NeverInFuture(c: Config, ops: seq<Op>, now: nat)
    requires InOrder(ops, 0) && (ops != [] ==> ops[|ops| - 1].End() <= now)
    ensures NotInFuture(RunFrom(c, FRESH, ops), now)
  {
    if ops != [] {
      var n := |ops| - 1;
      NeverInFuture(c, ops[..n], ops[n].at);
    }
  }

  /** From every reachable state, an admission OpenDuration after the last
      operation succeeds: no unresolved probe and no straggler wedges the breaker. */
  lemma {:induction false} AlwaysRecovers(c: Config, ops: seq<Op>, lastAt: nat, now: nat, startAt: nat)
    requires ValidConfig(c) && InOrder(ops, 0) && (ops != [] ==> ops[|ops| - 1].End() <= lastAt)
    requires lastAt + c.openDuration <= now
    ensures Allow(c, RunFrom(c, FRESH, ops), now, startAt).1
  {
    NeverInFuture(c, ops, lastAt);
  }
}
