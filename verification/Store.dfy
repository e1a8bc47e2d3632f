/** The per-(player, npc) conversation lock: SET NX with a TTL, and a release that
    deletes the key only while it carries the caller's own token. */
module Store {

  /** Tokens are 16 random bytes; two calls of AcquireConversationLock are taken
      to draw different ones, so a token names a call. */
  type Token = nat

  datatype LockKey = Free | Held(token: Token, expireAt: nat)

  /** The key as a command at `now` sees it. */
  function Visible(k: LockKey, now: nat): LockKey {
    if k.Held? && k.expireAt < now then Free else k
  }

  function SetNX(k: LockKey, token: Token, ttl: nat, now: nat): (LockKey, bool) {
    if Visible(k, now).Held? then (k, false) else (Held(token, now + ttl), true)
  }

  function ReleaseScript(k: LockKey, token: Token, now: nat): LockKey {
    var seen := Visible(k, now);
    if seen.Held? && seen.token == token then Free else seen
  }

  /** A caller between its first attempt and its unlock, which runs once. */
  datatype Caller = Waiting | Holding(expireAt: nat) | Unlocked

  class ConversationLock {
    var key: LockKey

    constructor ()
      ensures key == Free
    {
      key := Free;
    }

    /** One round of the acquire loop. */
    method TryAcquire(token: Token, ttl: nat, now: nat) returns (ok: bool)
      modifies this
      ensures (key, ok) == SetNX(old(key), token, ttl, now)
    {
      if key.Held? && now <= key.expireAt { return false; }
      key := Held(token, now + ttl);
      return true;
    }

    /** The function that releaser returns; `caller` is its sync.Once. */
    method Unlock(token: Token, caller: Caller, now: nat) returns (caller': Caller)
      modifies this
      ensures caller.Holding? ==> key == ReleaseScript(old(key), token, now) && caller' == Unlocked
      ensures !caller.Holding? ==> key == old(key) && caller' == caller
    {
      if !caller.Holding? { return caller; }
      key := Visible(key, now);
      if key.Held? && key.token == token { key := Free; }
      return Unlocked;
    }
  }

  // ---- interleavings ----

  datatype System = System(key: LockKey, callers: map<Token, Caller>, clock: nat)

  datatype Event = Try(token: Token, ttl: nat, at: nat) | Unlock(token: Token, at: nat)

  const START := System(Free, map[], 0)

  function Step(s: System, e: Event): System {
    match e
    case Try(token, ttl, at) =>
      var (key, ok) := SetNX(s.key, token, ttl, at);
      System(key, s.callers[token := if ok then Holding(at + ttl) else Waiting], at)
    case Unlock(token, at) =>
      if token in s.callers && s.callers[token].Holding?
      then System(ReleaseScript(s.key, token, at), s.callers[token := Unlocked], at)
      else s.(clock := at)
  }

  function Run(es: seq<Event>): System {
    if es == [] then START else Step(Run(es[..|es| - 1]), es[|es| - 1])
  }

  /** The clock does not run backwards, and a call stops trying once it holds. */
  ghost predicate Possible(s: System, e: Event) {
    s.clock <= e.at && (e.Try? ==> e.token !in s.callers || s.callers[e.token].Waiting?)
  }

  ghost predicate PossibleRun(es: seq<Event>) {
    es == [] || (PossibleRun(es[..|es| - 1]) && Possible(Run(es[..|es| - 1]), es[|es| - 1]))
  }

  /** `token` holds the lock and its TTL has not run out. */
  ghost predicate HoldsAt(s: System, token: Token, now: nat) {
    token in s.callers && s.callers[token].Holding? && now <= s.callers[token].expireAt
  }

  /** A visible key belongs to an unexpired holder, and an unexpired holder has
      the key. */
  ghost predicate KeyMatches(s: System) {
    forall token :: HoldsAt(s, token, s.clock) <==>
                    (Visible(s.key, s.clock).Held? && s.key.token == token)
  }

  ghost predicate ExpiriesMatch(s: System) {
    forall token :: HoldsAt(s, token, s.clock) ==> s.key == Held(token, s.callers[token].expireAt)
  }

  lemma StepKeepsKey(s: System, e: Event)
    requires KeyMatches(s) && ExpiriesMatch(s) && Possible(s, e)
    ensures KeyMatches(Step(s, e)) && ExpiriesMatch(Step(s, e))
  {
    var s' := Step(s, e);
    forall token ensures HoldsAt(s', token, s'.clock) <==> (Visible(s'.key, s'.clock).Held? && s'.key.token == token)
                 ensures HoldsAt(s', token, s'.clock) ==> s'.key == Held(token, s'.callers[token].expireAt) {
      assert HoldsAt(s, token, s.clock) <==> (Visible(s.key, s.clock).Held? && s.key.token == token);
      assert HoldsAt(s, e.token, s.clock) <==> (Visible(s.key, s.clock).Held? && s.key.token == e.token);
    }
  }

  lemma {:induction false} RunKeepsKey(es: seq<Event>)
    requires PossibleRun(es)
    ensures KeyMatches(Run(es)) && ExpiriesMatch(Run(es))
  {
    hide KeyMatches, ExpiriesMatch, Step;
    if es == [] {
      StartMatches();
    } else {
      RunKeepsKey(es[..|es| - 1]);
      StepKeepsKey(Run(es[..|es| - 1]), es[|es| - 1]);
    }
  }

  lemma StartMatches()
    ensures KeyMatches(START) && ExpiriesMatch(START)
  {
  }

  lemma LaterHolderHeldBefore(s: System, token: Token, now: nat)
    requires HoldsAt(s, token, now) && s.clock <= now
    ensures HoldsAt(s, token, s.clock)
  {
  }

  /** At every instant at most one caller holds the lock unexpired, and it is the
      one whose token the key carries. */
  lemma {:induction false} AtMostOneHolder(es: seq<Event>, a: Token, b: Token, now: nat)
    requires PossibleRun(es) && Run(es).clock <= now
    requires HoldsAt(Run(es), a, now) && HoldsAt(Run(es), b, now)
    ensures a == b && Visible(Run(es).key, now).Held? && Run(es).key.token == a
  {
    hide Run, PossibleRun;
    RunKeepsKey(es);
    LaterHolderHeldBefore(Run(es), a, now);
    LaterHolderHeldBefore(Run(es), b, now);
  }

  /** An unlock, first or repeated, timely or after expiry, makes a visible key
      disappear only if the key carries that caller's token, and then exactly
      that caller held the lock; otherwise the key is as it was. */
  lemma {:induction false} UnlockReleasesOnlyOwn(es: seq<Event>, token: Token, at: nat)
    requires PossibleRun(es) && Run(es).clock <= at
    ensures var s := Run(es);
            var before, after := Visible(s.key, at), Visible(Step(s, Unlock(token, at)).key, at);
            && (HoldsAt(s, token, at) ==> before.Held? && before.token == token && after == Free)
            && (!HoldsAt(s, token, at) ==> after == before)
  {
    hide Run, PossibleRun;
    RunKeepsKey(es);
    var s := Run(es);
    assert HoldsAt(s, token, s.clock) <==> (Visible(s.key, s.clock).Held? && s.key.token == token);
  }

  /** After every run an attempt takes the lock, until its TTL ends, if and only if
      nobody holds it unexpired. */
  lemma {:induction false} AcquiredIffNobodyHolds(es: seq<Event>, token: Token, ttl: nat, at: nat)
    requires PossibleRun(es) && Possible(Run(es), Try(token, ttl, at))
    ensures var s, s' := Run(es), Step(Run(es), Try(token, ttl, at));
            && (HoldsAt(s', token, at) <==> forall other :: !HoldsAt(s, other, at))
            && (HoldsAt(s', token, at) ==> s'.key == Held(token, at + ttl) && s'.callers[token] == Holding(at + ttl))
  {
    hide Run, PossibleRun;
    RunKeepsKey(es);
    var s := Run(es);
    if Visible(s.key, at).Held? {
      assert HoldsAt(s, s.key.token, s.clock);
      assert HoldsAt(s, s.key.token, at);
    }
    forall other | HoldsAt(s, other, at) ensures Visible(s.key, at).Held? {
      LaterHolderHeldBefore(s, other, at);
    }
  }
}
