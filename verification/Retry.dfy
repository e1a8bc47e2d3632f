/** Exponential backoff in 64-bit durations, and the upstream retry loop. */
module Retry {

  const TWO_62: int := 0x4000_0000_0000_0000
  const TWO_63: int := 0x8000_0000_0000_0000
  const TWO_64: int := 0x1_0000_0000_0000_0000

  /** A time.Duration: 64 bits, and here never negative to start with. */
  predicate IsDuration(d: int) { 0 <= d < TWO_63 }

  /** What an int64 keeps of x. */
  function Wrap64(x: int): (r: int)
    ensures -TWO_63 <= r < TWO_63 && (x - r) % TWO_64 == 0
  {
    (x + TWO_63) % TWO_64 - TWO_63
  }

  function Pow2(n: nat): (p: nat)
    ensures p >= 1
  {
    if n == 0 then 1 else 2 * Pow2(n - 1)
  }

  function Min(a: int, b: int): int { if a < b then a else b }

  // ---- the backoff ----

  /** `steps` more rounds of the doubling loop from `d`. */
  function Loop(d: int, max: int, steps: nat): int
    decreases steps
  {
    if steps == 0 then Min(d, max)
    else
      var d' := Wrap64(d * 2);
      if d' >= max then max else Loop(d', max, steps - 1)
  }

  function Backoff(base: int, max: int, attempt: int): int {
    Loop(base, max, if attempt < 1 then 0 else attempt - 1)
  }

  method RetryBackoff(attempt: int, base: int, max: int) returns (r: int)
    ensures r == Backoff(base, max, attempt)
    ensures attempt <= 1 ==> r == Min(base, max)
  {
    var n := if attempt < 1 then 1 else attempt;
    var d := base;
    for i := 1 to n
      invariant Loop(d, max, n - i) == Backoff(base, max, attempt)
    {
      d := Wrap64(d * 2);
      if d >= max { return max; }
    }
    return if d > max then max else d;
  }

  /** What the documentation promises for the n-th attempt. */
  function Promised(base: int, max: int, n: nat): int
    requires 1 <= n
  {
    Min(base * Pow2(n - 1), max)
  }

  /** The delay as first doubled k times. */
  function Doubled(base: int, k: nat): int {
    if k == 0 then base else 2 * Doubled(base, k - 1)
  }

  lemma {:induction false} DoubledIsPower(base: int, k: nat)
    ensures Doubled(base, k) == base * Pow2(k)
  {
    if k > 0 {
      DoubledIsPower(base, k - 1);
      var p := Pow2(k - 1);
      assert base * (2 * p) == 2 * (base * p);
    }
  }

  /** No doubling overflows: whenever the delay reaches 2^62 the loop has already
      capped it. */
  ghost predicate CappedInTime(base: int, max: int) {
    forall k: nat :: Doubled(base, k) >= TWO_62 ==> k > 0 && max <= Doubled(base, k)
  }

  lemma {:induction false} DoubledGrows(base: int, j: nat, k: nat)
    requires 0 <= base && j <= k
    ensures 0 <= Doubled(base, j) <= Doubled(base, k)
    decreases k
  {
    if j < k { DoubledGrows(base, j, k - 1); } else if k > 0 { DoubledGrows(base, j - 1, k - 1); }
  }

  lemma {:induction false} LoopFollows(base: int, max: int, k: nat, steps: nat)
    requires IsDuration(base) && IsDuration(max) && CappedInTime(base, max)
    requires k > 0 ==> Doubled(base, k) < max
    ensures Loop(Doubled(base, k), max, steps) == Min(Doubled(base, k + steps), max)
    decreases steps
  {
    DoubledGrows(base, 0, k);
    if steps > 0 {
      var d := Doubled(base, k);
      assert 2 * d == Doubled(base, k + 1);
      assert d < TWO_62;
      assert Wrap64(d * 2) == d * 2;
      if d * 2 >= max {
        DoubledGrows(base, k + 1, k + steps);
      } else {
        LoopFollows(base, max, k + 1, steps - 1);
      }
    }
  }

  /** An overflow makes a negative delay at some attempt. */
  lemma OverflowShows(base: int, max: int, k: nat) returns (n: nat)
    requires IsDuration(base) && IsDuration(max)
    requires Doubled(base, k) >= TWO_62 && (k == 0 || Doubled(base, k) < max)
    ensures 1 <= n && Backoff(base, max, n) < 0
  {
    n := k + 2;
    ReachesOverflow(base, max, 0, k);
  }

  lemma {:induction false} ReachesOverflow(base: int, max: int, j: nat, k: nat)
    requires IsDuration(base) && IsDuration(max) && j <= k
    requires Doubled(base, k) >= TWO_62 && (k == 0 || Doubled(base, k) < max)
    ensures Loop(Doubled(base, j), max, k + 1 - j) < 0
    decreases k - j
  {
    DoubledGrows(base, 0, j);
    var d := Doubled(base, j);
    assert 2 * d == Doubled(base, j + 1);
    if j == k {
      assert TWO_63 <= d * 2 < TWO_64;
      assert Wrap64(d * 2) == d * 2 - TWO_64;
    } else {
      DoubledGrows(base, j, k - 1);
      DoubledGrows(base, j + 1, k);
      assert Wrap64(d * 2) == d * 2;
      ReachesOverflow(base, max, j + 1, k);
    }
  }

  /** The loop gives the promised min(base * 2^(n-1), max) for every attempt if and
      only if no doubling overflows before the cap. */
  lemma {:induction false} PromisedIffCappedInTime(base: int, max: int)
    requires IsDuration(base) && IsDuration(max)
    ensures (forall n: nat :: 1 <= n ==> Backoff(base, max, n) == Promised(base, max, n)) <==> CappedInTime(base, max)
  {
    hide Loop, CappedInTime;
    if CappedInTime(base, max) {
      forall n: nat | 1 <= n ensures Backoff(base, max, n) == Promised(base, max, n) {
        LoopFollows(base, max, 0, n - 1);
        DoubledIsPower(base, n - 1);
      }
    } else {
      var k := Uncapped(base, max);
      var n := OverflowShows(base, max, k);
      DoubledIsPower(base, n - 1);
      DoubledGrows(base, 0, n - 1);
      assert Backoff(base, max, n) != Promised(base, max, n);
    }
  }

  lemma Uncapped(base: int, max: int) returns (k: nat)
    requires !CappedInTime(base, max)
    ensures Doubled(base, k) >= TWO_62 && (k == 0 || Doubled(base, k) < max)
  {
    k :| Doubled(base, k) >= TWO_62 && !(k > 0 && max <= Doubled(base, k));
  }

  /** In particular below 2^62, cap included; a base of 2^62 itself overflows. */
  lemma BelowLimitIsCapped(base: int, max: int)
    requires 0 <= base && 0 <= max <= TWO_62
    ensures CappedInTime(base, max) <==> base < TWO_62
  {
    hide Pow2;
    assert Doubled(base, 0) == base;
  }

  /** Later attempts never wait less. */
  lemma {:induction false} BackoffMonotone(base: int, max: int, m: nat, n: nat)
    requires IsDuration(base) && IsDuration(max) && CappedInTime(base, max) && 1 <= m <= n
    ensures Backoff(base, max, m) <= Backoff(base, max, n) <= max
  {
    hide Loop, CappedInTime;
    LoopFollows(base, max, 0, m - 1);
    LoopFollows(base, max, 0, n - 1);
    DoubledGrows(base, m - 1, n - 1);
  }

  // ---- the retry loop ----

  const MAX_UPSTREAM_ATTEMPTS: nat := 3

  datatype Outcome =
    | Response
    | UpstreamError(status: int, retryAfter: int)
    | TransportError

  datatype Result = Answered | Failed(outcome: Outcome) | Interrupted

  /** A response with a status that says to try again later. */
  ghost predicate AsksToRetry(o: Outcome) {
    match o
    case UpstreamError(status, _) => status == 429 || 500 <= status
    case _ => false
  }

  /** `outcomes(n)` is what the n-th call would give and `sleeps(n)` whether the
      wait after it ends before the context does. At most three calls are made;
      every call but the last was retryable and waited for; nothing is called after
      a success, an error that is not retryable, or an interrupted wait. */
  method DoRequestWithRetry(outcomes: nat -> Outcome, sleeps: nat -> bool, base: int, max: int)
    returns (result: Result, calls: nat, waits: seq<int>)
    ensures 1 <= calls <= MAX_UPSTREAM_ATTEMPTS
    ensures forall n :: 1 <= n < calls ==> AsksToRetry(outcomes(n)) && sleeps(n)
    ensures result == Answered <==> outcomes(calls).Response?
    ensures result == Interrupted <==> AsksToRetry(outcomes(calls)) && calls < MAX_UPSTREAM_ATTEMPTS
    ensures result == Interrupted ==> !sleeps(calls)
    ensures result.Failed? ==> result.outcome == outcomes(calls)
    ensures |waits| == (if result == Interrupted then calls else calls - 1)
    ensures forall n :: 1 <= n <= |waits| ==>
              && outcomes(n).UpstreamError? && Backoff(base, max, n) <= waits[n - 1] && outcomes(n).retryAfter <= waits[n - 1]
              && (waits[n - 1] == Backoff(base, max, n) || waits[n - 1] == outcomes(n).retryAfter)
  {
    calls, waits := 0, [];
    while calls < MAX_UPSTREAM_ATTEMPTS
      invariant 0 <= calls <= MAX_UPSTREAM_ATTEMPTS && |waits| == calls
      invariant forall n :: 1 <= n <= calls ==> AsksToRetry(outcomes(n)) && sleeps(n)
      invariant calls < MAX_UPSTREAM_ATTEMPTS
      invariant forall n :: 1 <= n <= |waits| ==>
                  && outcomes(n).UpstreamError? && Backoff(base, max, n) <= waits[n - 1] && outcomes(n).retryAfter <= waits[n - 1]
                  && (waits[n - 1] == Backoff(base, max, n) || waits[n - 1] == outcomes(n).retryAfter)
    {
      calls := calls + 1;
      var o := outcomes(calls);
      if o.Response? { return Answered, calls, waits; }
      var retryable := o.UpstreamError? && (o.status == 429 || o.status >= 500);
      if !retryable || calls == MAX_UPSTREAM_ATTEMPTS { return Failed(o), calls, waits; }
      var backoff := RetryBackoff(calls, base, max);
      if o.retryAfter > backoff { backoff := o.retryAfter; }
      waits := waits + [backoff];
      if !sleeps(calls) { return Interrupted, calls, waits; }
    }
    assert false;
  }
}
