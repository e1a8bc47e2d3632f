/** The per-player sliding window: a purged sorted set that answers as if it
    counted the whole admission log. */
module RateWindow {
  import opened Redis

  function RateScript(k: ZSet, now: nat, cutoff: int, limit: nat, member: string, window: nat): (ZSet, nat) {
    var key := Access(k, now);
    var recent := RemRangeByScore(key.entries, cutoff);
    if |recent| >= limit then (key.(entries := recent), 0)
    else (ZSet(Add(recent, Entry(now, member)), now + window), 1)
  }

  /** The entries that a script at `now` still counts. */
  function Recent(k: ZSet, now: nat, window: nat): seq<nat> {
    After(Scores(k.entries), now - window)
  }

  /** Scores ascend, none is in the future, and the key outlives its last entry
      by at least one window, but now by no more than one. */
  ghost predicate WellFormed(k: ZSet, now: nat, window: nat) {
    && Ascending(Scores(k.entries))
    && AllAtMost(Scores(k.entries), now)
    && AllAtMost(Scores(k.entries), k.expireAt - window)
    && k.expireAt <= now + window
  }

  lemma PurgeSeesWindow(k: ZSet, now: nat, window: nat)
    requires AllAtMost(Scores(k.entries), k.expireAt - window)
    ensures Scores(RemRangeByScore(Access(k, now).entries, now - window)) == Recent(k, now, window)
    ensures forall m :: HasMember(RemRangeByScore(Access(k, now).entries, now - window), m) ==> HasMember(k.entries, m)
  {
    hide RemRangeByScore, After, HasMember;
    var key := Access(k, now);
    PurgeScores(key.entries, now - window);
    if k.expireAt < now { AfterOfEarlier(Scores(k.entries), now - window); AfterOfLater([], now - window); }
    forall m | HasMember(RemRangeByScore(key.entries, now - window), m) ensures HasMember(k.entries, m) {
      PurgeMembers(key.entries, now - window, m);
      NoMembers(m);
    }
  }

  lemma RateEffect(k: ZSet, now: nat, limit: nat, member: string, window: nat)
    requires WellFormed(k, now, window) && 1 <= limit && !HasMember(k.entries, member)
    ensures var (k', r) := RateScript(k, now, now - window, limit, member, window);
            && WellFormed(k', now, window)
            && (r == 0 || r == 1) && (r == 1 <==> |Recent(k, now, window)| < limit)
            && Scores(k'.entries) == Recent(k, now, window) + (if r == 1 then [now] else [])
            && (forall m :: HasMember(k'.entries, m) ==> HasMember(k.entries, m) || m == member)
  {
    hide RemRangeByScore, After, HasMember, Add;
    var recent := RemRangeByScore(Access(k, now).entries, now - window);
    PurgeSeesWindow(k, now, window);
    AfterIsSuffix(Scores(k.entries), now - window);
    assert Ascending(Scores(recent)) && AllAtMost(Scores(recent), now);
    AddLatest(recent, Entry(now, member));
    if recent != [] {
      assert now - window < Scores(k.entries)[|k.entries| - 1] <= k.expireAt - window;
    }
  }

  // ---- runs ----

  datatype Params = Params(limit: nat, window: nat)

  datatype Attempt = Attempt(gateway: string, at: nat)

  /** One player's key, and the log of all instants at which the player was
      admitted; the scripts never see the log. */
  datatype System = System(key: ZSet, serials: map<string, nat>, clock: nat, log: seq<nat>)

  const START := System(ABSENT, map[], 0, [])

  function Admit(p: Params, s: System, a: Attempt): (ZSet, nat) {
    RateScript(s.key, a.at, a.at - p.window, p.limit, MemberName(a.gateway, a.at, Serial(s.serials, a.gateway) + 1), p.window)
  }

  function Step(p: Params, s: System, a: Attempt): System {
    var (key, r) := Admit(p, s, a);
    System(key, s.serials[a.gateway := Serial(s.serials, a.gateway) + 1], a.at, if r == 1 then s.log + [a.at] else s.log)
  }

  function Run(p: Params, es: seq<Attempt>): System {
    if es == [] then START else Step(p, Run(p, es[..|es| - 1]), es[|es| - 1])
  }

  ghost predicate Possible(s: System, a: Attempt) {
    s.clock <= a.at && ':' !in a.gateway
  }

  ghost predicate PossibleRun(p: Params, es: seq<Attempt>) {
    es == [] || (PossibleRun(p, es[..|es| - 1]) && Possible(Run(p, es[..|es| - 1]), es[|es| - 1]))
  }

  /** How often `log` has an instant in (lo, hi]. */
  function CountIn(log: seq<nat>, lo: int, hi: int): nat {
    if log == [] then 0
    else (if lo < log[0] <= hi then 1 else 0) + CountIn(log[1..], lo, hi)
  }

  // ---- the set answers as the log does ----

  /** The key counts every admission that any later window can still contain. */
  ghost predicate Tracks(p: Params, s: System) {
    && WellFormed(s.key, s.clock, p.window)
    && AllAtMost(s.log, s.clock)
    && Recent(s.key, s.clock, p.window) == After(s.log, s.clock - p.window)
    && NamesUnissued(s.key.entries, s.serials)
  }

  lemma TracksLater(p: Params, s: System, now: nat)
    requires Tracks(p, s) && s.clock <= now
    ensures Recent(s.key, now, p.window) == After(s.log, now - p.window)
  {
    hide After, NamesUnissued;
    AfterAfter(Scores(s.key.entries), s.clock - p.window, now - p.window);
    AfterAfter(s.log, s.clock - p.window, now - p.window);
  }

  lemma StepKeepsTracks(p: Params, s: System, a: Attempt)
    requires 1 <= p.limit && 1 <= p.window && Tracks(p, s) && Possible(s, a)
    ensures Tracks(p, Step(p, s, a))
    ensures Admit(p, s, a).1 == 1 <==> |After(s.log, a.at - p.window)| < p.limit
  {
    hide After, HasMember, MemberName, RateScript, NamesUnissued;
    var s' := Step(p, s, a);
    NextIsFresh(s.key.entries, s.serials, a.gateway, a.at);
    RateEffect(s.key, a.at, p.limit, MemberName(a.gateway, a.at, Serial(s.serials, a.gateway) + 1), p.window);
    IssueOne(s.key.entries, s'.key.entries, s.serials, a.gateway, a.at);
    TracksLater(p, s, a.at);
    var recent := Recent(s.key, a.at, p.window);
    AfterAfter(Scores(s.key.entries), a.at - p.window, a.at - p.window);
    AfterSnoc(recent, a.at, a.at - p.window);
    AfterSnoc(s.log, a.at, a.at - p.window);
    assert recent + [] == recent;
  }

  lemma {:induction false} RunTracks(p: Params, es: seq<Attempt>)
    requires 1 <= p.limit && 1 <= p.window && PossibleRun(p, es)
    ensures Tracks(p, Run(p, es))
  {
    hide Step;
    if es == [] {
      StartTracks(p);
    } else {
      RunTracks(p, es[..|es| - 1]);
      StepKeepsTracks(p, Run(p, es[..|es| - 1]), es[|es| - 1]);
    }
  }

  lemma StartTracks(p: Params)
    ensures Tracks(p, START)
  {
    NoneIssued();
  }

  lemma {:induction false} CountIsAfter(log: seq<nat>, lo: int, hi: int)
    requires AllAtMost(log, hi)
    ensures CountIn(log, lo, hi) == |After(log, lo)|
  {
    if log != [] { CountIsAfter(log[1..], lo, hi); }
  }

  /** After every possible run, the next attempt is admitted exactly when the
      player was admitted fewer than `limit` times in the window that ends now. */
  lemma {:induction false} AdmittedIffWindowNotFull(p: Params, es: seq<Attempt>, a: Attempt)
    requires 1 <= p.limit && 1 <= p.window && PossibleRun(p, es) && Possible(Run(p, es), a)
    ensures Admit(p, Run(p, es), a).1 == 1 <==> CountIn(Run(p, es).log, a.at - p.window, a.at) < p.limit
  {
    hide Run, Admit, After, CountIn;
    RunTracks(p, es);
    StepKeepsTracks(p, Run(p, es), a);
    CountIsAfter(Run(p, es).log, a.at - p.window, a.at);
  }

  /** More than one window after the last attempt Redis has dropped the key itself. */
  lemma {:induction false} KeyExpires(p: Params, es: seq<Attempt>, now: nat)
    requires 1 <= p.limit && 1 <= p.window && PossibleRun(p, es) && Run(p, es).clock + p.window < now
    ensures Access(Run(p, es).key, now) == ABSENT
  {
    hide Run, PossibleRun;
    RunTracks(p, es);
  }

  // ---- no window is ever overfull ----

  lemma {:induction false} CountSnoc(log: seq<nat>, x: nat, lo: int, hi: int)
    ensures CountIn(log + [x], lo, hi) == CountIn(log, lo, hi) + (if lo < x <= hi then 1 else 0)
  {
    if log == [] {
      assert [] + [x] == [x];
    } else {
      CountSnoc(log[1..], x, lo, hi);
      assert (log + [x])[1..] == log[1..] + [x];
    }
  }

  lemma {:induction false} CountShrinks(log: seq<nat>, lo: int, lo': int, hi: int)
    requires lo <= lo'
    ensures CountIn(log, lo', hi) <= CountIn(log, lo, hi)
  {
    if log != [] { CountShrinks(log[1..], lo, lo', hi); }
  }

  /** For every instant t, the player was admitted at most `limit` times in
      (t - window, t]. */
  lemma {:induction false} NoWindowOverfull(p: Params, es: seq<Attempt>, t: int)
    requires 1 <= p.limit && 1 <= p.window && PossibleRun(p, es)
    ensures CountIn(Run(p, es).log, t - p.window, t) <= p.limit
  {
    hide Admit, After, CountIn, Tracks;
    if es == [] {
      EmptyCount(t - p.window, t);
    } else {
      var s, a := Run(p, es[..|es| - 1]), es[|es| - 1];
      NoWindowOverfull(p, es[..|es| - 1], t);
      RunTracks(p, es[..|es| - 1]);
      OneMoreFits(p, s, a, t);
    }
  }

  lemma EmptyCount(lo: int, hi: int)
    ensures CountIn([], lo, hi) == 0
  {
  }

  lemma OneMoreFits(p: Params, s: System, a: Attempt, t: int)
    requires 1 <= p.limit && 1 <= p.window && Tracks(p, s) && Possible(s, a)
    requires CountIn(s.log, t - p.window, t) <= p.limit
    ensures CountIn(Step(p, s, a).log, t - p.window, t) <= p.limit
  {
    hide Admit, After, CountIn, NamesUnissued;
    StepKeepsTracks(p, s, a);
    CountSnoc(s.log, a.at, t - p.window, t);
    if a.at <= t {
      CountIsAfter(s.log, a.at - p.window, t);
      CountShrinks(s.log, a.at - p.window, t - p.window, t);
    }
  }
}
