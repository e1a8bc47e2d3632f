/** Double-checked creation of the conversation of one (player, npc): requests with
    no stored id contend for the lock, read again, and only then go upstream with
    an empty id. Client ids are blank and the mapping is neither reset nor expires. */
module Conversation {
  import opened Options
  import Store

  /** resolveConversation's TTL: the configured one, or the time to the request's
      deadline and one second more if that is longer. */
  function LockTtl(configured: nat, deadline: Option<nat>, now: nat): (ttl: nat)
    ensures configured <= ttl
    ensures deadline.Some? ==> deadline.value + 1000 <= now + ttl
    ensures ttl == configured || (deadline.Some? && now + ttl == deadline.value + 1000)
  {
    if deadline.Some? && deadline.value - now + 1000 > configured then deadline.value - now + 1000 else configured
  }

  /** Where one request is. The lock's token is the request's number. */
  datatype Pc =
    | Entered
    | Contending                             // the first read found no mapping
    | Locked(expireAt: nat)                  // holds the lock, second read to come
    | Yielding(expireAt: nat, id: string)    // second read found an id: unlock, then reuse it
    | Creating(expireAt: nat)                // upstream with an empty id
    | Persisting(expireAt: nat, id: string)  // upstream answered with a new id
    | Leaving(expireAt: nat)                 // deferred unlock to come
    | Reusing(id: string)                    // upstream with a known id, no lock
    | Finished

  /** From taking the lock until there is nothing left to store. */
  predicate Critical(pc: Pc) {
    pc.Locked? || pc.Creating? || pc.Persisting?
  }

  datatype Action =
    | Read                       // GetConversation, first or second
    | TryLock(ttl: nat)
    | Answer(result: string)     // upstream ends; "" if it failed or gave no id
    | Persist(stored: bool)      // SetConversation, which may fail
    | Unlock
    | Abandon                    // context done, or a store error

  datatype Event = Event(req: nat, action: Action, at: nat)

  /** `mapping` is "" while no id is stored; `created` lists the requests that went
      upstream with an empty id and stored the answer. */
  datatype System = System(mapping: string, key: Store.LockKey, pcs: map<nat, Pc>, created: seq<(nat, string)>, clock: nat)

  const START := System("", Store.Free, map[], [], 0)

  function PcOf(s: System, req: nat): Pc {
    if req in s.pcs then s.pcs[req] else Entered
  }

  function Go(s: System, e: Event, pc: Pc): System {
    s.(pcs := s.pcs[e.req := pc], clock := e.at)
  }

  function Step(s: System, e: Event): System {
    match (PcOf(s, e.req), e.action)
    case (Entered, Read) => Go(s, e, if s.mapping != "" then Reusing(s.mapping) else Contending)
    case (Contending, TryLock(ttl)) =>
      var (key, ok) := Store.SetNX(s.key, e.req, ttl, e.at);
      Go(s.(key := key), e, if ok then Locked(e.at + ttl) else Contending)
    case (Contending, Abandon) => Go(s, e, Finished)
    case (Locked(x), Read) => Go(s, e, if s.mapping != "" then Yielding(x, s.mapping) else Creating(x))
    case (Locked(x), Abandon) => Go(s, e, Leaving(x))
    case (Yielding(x, id), Unlock) => Go(s.(key := Store.ReleaseScript(s.key, e.req, e.at)), e, Reusing(id))
    case (Creating(x), Answer(id)) => Go(s, e, if id == "" then Leaving(x) else Persisting(x, id))
    case (Persisting(x, id), Persist(stored)) =>
      if stored then Go(s.(mapping := id, created := s.created + [(e.req, id)]), e, Leaving(x)) else Go(s, e, Leaving(x))
    case (Leaving(x), Unlock) => Go(s.(key := Store.ReleaseScript(s.key, e.req, e.at)), e, Finished)
    case (Reusing(id), Answer(result)) =>
      Go(s.(mapping := if result == "" then s.mapping else result), e, Finished)
    case _ => s.(clock := e.at)
  }

  function Run(es: seq<Event>): System {
    if es == [] then START else Step(Run(es[..|es| - 1]), es[|es| - 1])
  }

  /** The clock does not run backwards and upstream echoes an id it was given. */
  ghost predicate Possible(s: System, e: Event) {
    s.clock <= e.at &&
    (PcOf(s, e.req).Reusing? && e.action.Answer? ==> e.action.result == "" || e.action.result == PcOf(s, e.req).id)
  }

  /** No request is in its critical section after its lock's TTL. The unlock that
      follows may come late: the token guards it. */
  ghost predicate WithinTtl(s: System, at: nat) {
    forall r :: Critical(PcOf(s, r)) ==> at <= PcOf(s, r).expireAt
  }

  ghost predicate TimelyRun(es: seq<Event>) {
    es == [] ||
    var before := Run(es[..|es| - 1]);
    && TimelyRun(es[..|es| - 1])
    && Possible(before, es[|es| - 1]) && WithinTtl(before, es[|es| - 1].at)
  }

  // ---- what a timely run keeps ----

  /** Whoever is in the critical section has the key. */
  ghost predicate LockedOut(s: System) {
    forall r :: Critical(PcOf(s, r)) ==> s.key == Store.Held(r, PcOf(s, r).expireAt)
  }

  /** Nothing is stored while someone creates; whoever reuses has the stored id. */
  ghost predicate Agrees(s: System) {
    forall r :: var pc := PcOf(s, r);
                && (pc.Creating? || pc.Persisting? ==> s.mapping == "")
                && (pc.Persisting? ==> pc.id != "")
                && (pc.Yielding? || pc.Reusing? ==> pc.id == s.mapping && pc.id != "")
  }

  ghost predicate AtMostOnce(s: System) {
    (s.mapping == "" && s.created == []) ||
    (s.mapping != "" && exists r :: s.created == [(r, s.mapping)])
  }

  lemma StepKeepsLockedOut(s: System, e: Event)
    requires LockedOut(s) && Possible(s, e) && WithinTtl(s, e.at)
    ensures LockedOut(Step(s, e))
  {
    var s' := Step(s, e);
    forall r | Critical(PcOf(s', r)) ensures s'.key == Store.Held(r, PcOf(s', r).expireAt) {
      if r != e.req { assert PcOf(s', r) == PcOf(s, r); }
      if Critical(PcOf(s, r)) { assert s.key == Store.Held(r, PcOf(s, r).expireAt) && e.at <= s.key.expireAt; }
      if Critical(PcOf(s, e.req)) { assert s.key == Store.Held(e.req, PcOf(s, e.req).expireAt); }
    }
  }

  lemma StepKeepsAgrees(s: System, e: Event)
    requires LockedOut(s) && Agrees(s) && AtMostOnce(s) && Possible(s, e)
    ensures Agrees(Step(s, e)) && AtMostOnce(Step(s, e))
  {
    var s' := Step(s, e);
    var mine := PcOf(s, e.req);
    assert mine.Persisting? ==> s.mapping == "" && mine.id != "";
    assert mine.Reusing? || mine.Yielding? ==> mine.id == s.mapping;
    forall r ensures var pc := PcOf(s', r);
                     && (pc.Creating? || pc.Persisting? ==> s'.mapping == "")
                     && (pc.Persisting? ==> pc.id != "")
                     && (pc.Yielding? || pc.Reusing? ==> pc.id == s'.mapping && pc.id != "") {
      if r != e.req {
        assert PcOf(s', r) == PcOf(s, r);
        assert !(mine.Persisting? && Critical(PcOf(s, r)));
      }
    }
    if s'.created != s.created { assert s'.created == [(e.req, s'.mapping)]; }
  }

  lemma {:induction false} RunInvariant(es: seq<Event>)
    requires TimelyRun(es)
    ensures LockedOut(Run(es)) && Agrees(Run(es)) && AtMostOnce(Run(es))
  {
    hide LockedOut, Agrees, AtMostOnce, Step;
    if es == [] {
      StartInvariant();
    } else {
      RunInvariant(es[..|es| - 1]);
      StepKeepsLockedOut(Run(es[..|es| - 1]), es[|es| - 1]);
      StepKeepsAgrees(Run(es[..|es| - 1]), es[|es| - 1]);
    }
  }

  lemma StartInvariant()
    ensures LockedOut(START) && Agrees(START) && AtMostOnce(START)
  {
  }

  /** In every timely interleaving at most one request goes upstream with an empty
      id and stores the answer; once it has, that id stays the stored one, every
      request that goes upstream carries it, and nobody is creating. */
  lemma {:induction false} ConversationCreatedOnce(es: seq<Event>)
    requires TimelyRun(es)
    ensures var s := Run(es);
            && |s.created| <= 1
            && (s.created != [] ==> s.mapping == s.created[0].1)
            && (forall r :: PcOf(s, r).Reusing? ==> s.created != [] && PcOf(s, r).id == s.created[0].1)
            && (forall r :: PcOf(s, r).Creating? || PcOf(s, r).Persisting? ==> s.created == [])
  {
    hide Run, TimelyRun, LockedOut;
    RunInvariant(es);
    var s := Run(es);
    forall r | PcOf(s, r).Reusing? ensures s.created != [] && PcOf(s, r).id == s.created[0].1 {
      assert PcOf(s, r).id == s.mapping;
    }
  }

  /** Once an id is stored it is stored for the rest of the run. */
  lemma {:induction false} StoredForGood(es: seq<Event>, e: Event)
    requires TimelyRun(es + [e]) && Run(es).created != []
    ensures Run(es + [e]).created == Run(es).created && Run(es + [e]).mapping == Run(es).mapping
  {
    assert (es + [e])[..|es|] == es;
    RunInvariant(es);
    var s := Run(es);
    var pc := PcOf(s, e.req);
    hide Run, TimelyRun, LockedOut;
    assert pc.Persisting? ==> s.mapping == "";
    assert pc.Reusing? ==> pc.id == s.mapping;
  }

  /** Once an id is stored, every first read goes upstream with it and without the
      lock, and a request that got the lock meanwhile gives it up for that id; before
      that, a first read contends for the lock and its holder creates. A store that
      fails stores nothing. */
  lemma {:induction false} ReadsDecide(es: seq<Event>, r: nat, at: nat)
    requires TimelyRun(es)
    ensures var s := Run(es);
            var read := PcOf(Step(s, Event(r, Read, at)), r);
            && (PcOf(s, r).Entered? ==> read == if s.created != [] then Reusing(s.created[0].1) else Contending)
            && (PcOf(s, r).Locked? ==>
                  read == if s.created != [] then Yielding(PcOf(s, r).expireAt, s.created[0].1) else Creating(PcOf(s, r).expireAt))
            && Step(s, Event(r, Persist(false), at)).mapping == s.mapping
  {
    hide Run, TimelyRun, LockedOut, Agrees;
    RunInvariant(es);
  }

  // ---- the lock is given back ----

  /** Every event is possible, but locks may run out inside critical sections. */
  ghost predicate PossibleRun(es: seq<Event>) {
    es == [] || (PossibleRun(es[..|es| - 1]) && Possible(Run(es[..|es| - 1]), es[|es| - 1]))
  }

  lemma RunSnoc(es: seq<Event>, e: Event)
    requires PossibleRun(es) && Possible(Run(es), e)
    ensures PossibleRun(es + [e]) && Run(es + [e]) == Step(Run(es), e)
  {
    assert (es + [e])[..|es|] == es;
  }

  /** Has taken the lock and has yet to unlock. */
  predicate HasLock(pc: Pc) {
    pc.Locked? || pc.Yielding? || pc.Creating? || pc.Persisting? || pc.Leaving?
  }

  /** A key that still counts belongs to a request that has yet to unlock. */
  ghost predicate KeyOwned(s: System, now: nat) {
    Store.Visible(s.key, now).Held? ==>
      HasLock(PcOf(s, s.key.token)) && PcOf(s, s.key.token).expireAt == s.key.expireAt
  }

  lemma StepKeepsOwned(s: System, e: Event)
    requires KeyOwned(s, s.clock) && Possible(s, e)
    ensures KeyOwned(Step(s, e), e.at)
  {
    var s' := Step(s, e);
    if Store.Visible(s'.key, e.at).Held? && s'.key.token != e.req {
      assert PcOf(s', s'.key.token) == PcOf(s, s'.key.token);
    }
  }

  lemma {:induction false} RunKeepsOwned(es: seq<Event>)
    requires PossibleRun(es)
    ensures KeyOwned(Run(es), Run(es).clock)
  {
    hide Step, KeyOwned;
    if es == [] {
      StartOwned();
    } else {
      RunKeepsOwned(es[..|es| - 1]);
      StepKeepsOwned(Run(es[..|es| - 1]), es[|es| - 1]);
      StepClock(Run(es[..|es| - 1]), es[|es| - 1]);
    }
  }

  lemma StartOwned()
    ensures KeyOwned(START, 0)
  {
  }

  lemma StepClock(s: System, e: Event)
    ensures Step(s, e).clock == e.at
  {
  }

  /** The lock never leaks: in every possible interleaving, timely or not, a request
      that tries for it gets it with its own TTL, unless some request that has yet to
      unlock holds it within its TTL. */
  lemma {:induction false} LockNeverLeaks(es: seq<Event>, r: nat, ttl: nat, at: nat)
    requires PossibleRun(es) && Run(es).clock <= at && PcOf(Run(es), r).Contending?
    ensures var s, s' := Run(es), Step(Run(es), Event(r, TryLock(ttl), at));
            || (PcOf(s', r) == Locked(at + ttl) && s'.key == Store.Held(r, at + ttl))
            || (exists q :: q != r && HasLock(PcOf(s, q)) && at <= PcOf(s, q).expireAt && s.key == Store.Held(q, PcOf(s, q).expireAt))
  {
    hide Run, PossibleRun;
    RunKeepsOwned(es);
    var s := Run(es);
    if Store.Visible(s.key, at).Held? { assert HasLock(PcOf(s, s.key.token)); }
  }

  /** A request that unlocks no longer has the key, and takes nobody else's. */
  lemma UnlockGivesBack(es: seq<Event>, r: nat, at: nat)
    requires PossibleRun(es) && Run(es).clock <= at
    requires PcOf(Run(es), r).Leaving? || PcOf(Run(es), r).Yielding?
    ensures var s, s' := Run(es), Step(Run(es), Event(r, Unlock, at));
            var seen, left := Store.Visible(s.key, at), Store.Visible(s'.key, at);
            && !HasLock(PcOf(s', r))
            && left == (if seen.Held? && seen.token == r then Store.Free else seen)
  {
    hide Run, PossibleRun;
  }

  // ---- requests with a deadline ----

  /** Every request has a deadline, computes its TTL from it before trying for the
      lock, and leaves its critical section within a second of it. */
  ghost predicate DeadlinedRun(es: seq<Event>, configured: nat, deadline: nat -> nat) {
    es == [] ||
    var before, e := Run(es[..|es| - 1]), es[|es| - 1];
    && DeadlinedRun(es[..|es| - 1], configured, deadline)
    && Possible(before, e)
    && (e.action.TryLock? ==> exists t: nat :: t <= e.at && e.action.ttl == LockTtl(configured, Some(deadline(e.req)), t))
    && (forall r :: Critical(PcOf(before, r)) ==> e.at <= deadline(r) + 1000)
  }

  ghost predicate Outlasts(s: System, deadline: nat -> nat) {
    forall r :: Critical(PcOf(s, r)) ==> deadline(r) + 1000 <= PcOf(s, r).expireAt
  }

  lemma StepKeepsOutlasts(s: System, e: Event, configured: nat, deadline: nat -> nat)
    requires Outlasts(s, deadline)
    requires e.action.TryLock? ==> exists t: nat :: t <= e.at && e.action.ttl == LockTtl(configured, Some(deadline(e.req)), t)
    ensures Outlasts(Step(s, e), deadline)
  {
    var s' := Step(s, e);
    forall r | Critical(PcOf(s', r)) ensures deadline(r) + 1000 <= PcOf(s', r).expireAt {
      if r != e.req { assert PcOf(s', r) == PcOf(s, r); }
    }
  }

  /** The TTL taken from the deadline is long enough: such runs are timely, so the
      conversation is created once. */
  lemma {:induction false} DeadlinesMakeTimely(es: seq<Event>, configured: nat, deadline: nat -> nat)
    requires DeadlinedRun(es, configured, deadline)
    ensures TimelyRun(es) && Outlasts(Run(es), deadline) && |Run(es).created| <= 1
  {
    hide Step;
    if es == [] {
      StartInvariant();
    } else {
      DeadlinesMakeTimely(es[..|es| - 1], configured, deadline);
      StepKeepsOutlasts(Run(es[..|es| - 1]), es[|es| - 1], configured, deadline);
    }
    ConversationCreatedOnce(es);
  }

  // ---- a critical section that outlasts its lock ----

  /** Two requests; the first one's upstream call takes longer than the lock. */
  function SlowFirst(ttl: nat): seq<Event> {
    [Event(1, Read, 0)] + [Event(2, Read, 0)] + [Event(1, TryLock(ttl), 0)] + [Event(1, Read, 0)] +
    [Event(2, TryLock(ttl), ttl + 1)] + [Event(2, Read, ttl + 1)]
  }

  function BothPersist(ttl: nat): seq<Event> {
    SlowFirst(ttl) +
    [Event(1, Answer("first"), ttl + 1)] + [Event(1, Persist(true), ttl + 1)] +
    [Event(2, Answer("second"), ttl + 1)] + [Event(2, Persist(true), ttl + 1)]
  }

  lemma BothCreate(ttl: nat)
    ensures PossibleRun(SlowFirst(ttl))
    ensures Run(SlowFirst(ttl)) ==
            System("", Store.Held(2, 2 * ttl + 1), map[1 := Creating(ttl), 2 := Creating(2 * ttl + 1)], [], ttl + 1)
  {
    hide Run, PossibleRun;
    EmptyRun();
    var es: seq<Event> := [];
    RunSnoc(es, Event(1, Read, 0));
    es := [Event(1, Read, 0)];
    assert [] + es == es;
    assert Run(es) == System("", Store.Free, map[1 := Contending], [], 0);
    RunSnoc(es, Event(2, Read, 0));
    es := es + [Event(2, Read, 0)];
    assert Run(es) == System("", Store.Free, map[1 := Contending, 2 := Contending], [], 0);
    RunSnoc(es, Event(1, TryLock(ttl), 0));
    es := es + [Event(1, TryLock(ttl), 0)];
    assert Run(es) == System("", Store.Held(1, ttl), map[1 := Locked(ttl), 2 := Contending], [], 0);
    RunSnoc(es, Event(1, Read, 0));
    es := es + [Event(1, Read, 0)];
    assert Run(es) == System("", Store.Held(1, ttl), map[1 := Creating(ttl), 2 := Contending], [], 0);
    RunSnoc(es, Event(2, TryLock(ttl), ttl + 1));
    es := es + [Event(2, TryLock(ttl), ttl + 1)];
    assert Run(es) == System("", Store.Held(2, 2 * ttl + 1), map[1 := Creating(ttl), 2 := Locked(2 * ttl + 1)], [], ttl + 1);
    RunSnoc(es, Event(2, Read, ttl + 1));
  }

  lemma EmptyRun()
    ensures PossibleRun([]) && Run([]) == START
  {
  }

  /** Without the TTL hypothesis the conversation forks, whatever the TTL: two
      requests go upstream with an empty id and both store their answers. */
  lemma LateCreatorForks(ttl: nat)
    ensures PossibleRun(BothPersist(ttl))
    ensures Run(BothPersist(ttl)).created == [(1, "first"), (2, "second")]
  {
    hide Run, PossibleRun, SlowFirst;
    BothCreate(ttl);
    var es, at := SlowFirst(ttl), ttl + 1;
    RunSnoc(es, Event(1, Answer("first"), at));
    es := es + [Event(1, Answer("first"), at)];
    RunSnoc(es, Event(1, Persist(true), at));
    es := es + [Event(1, Persist(true), at)];
    assert Run(es).created == [(1, "first")] && PcOf(Run(es), 2) == Creating(2 * ttl + 1);
    RunSnoc(es, Event(2, Answer("second"), at));
    es := es + [Event(2, Answer("second"), at)];
    RunSnoc(es, Event(2, Persist(true), at));
  }

  // ---- how long a critical section may last ----

  /** Every lock is taken with the TTL `ttl`, so that expireAt - ttl is when it was
      taken, and nobody is in its critical section for longer than `longest`. */
  ghost predicate BoundedRun(es: seq<Event>, ttl: nat, longest: nat) {
    es == [] ||
    var before, e := Run(es[..|es| - 1]), es[|es| - 1];
    && BoundedRun(es[..|es| - 1], ttl, longest)
    && Possible(before, e)
    && (e.action.TryLock? ==> e.action.ttl == ttl)
    && (forall r :: Critical(PcOf(before, r)) ==> e.at <= PcOf(before, r).expireAt - ttl + longest)
  }

  lemma {:induction false} ShortSectionsAreTimely(es: seq<Event>, ttl: nat, longest: nat)
    requires BoundedRun(es, ttl, longest) && longest <= ttl
    ensures TimelyRun(es)
  {
    hide Run;
    if es != [] { ShortSectionsAreTimely(es[..|es| - 1], ttl, longest); }
  }

  /** A run that ends by `longest` has no section longer than that. */
  lemma {:induction false} EarlyRunIsBounded(es: seq<Event>, ttl: nat, longest: nat)
    requires PossibleRun(es)
    requires forall i :: 0 <= i < |es| ==> es[i].at <= longest && (es[i].action.TryLock? ==> es[i].action.ttl == ttl)
    ensures BoundedRun(es, ttl, longest)
    ensures forall r :: Critical(PcOf(Run(es), r)) ==> ttl <= PcOf(Run(es), r).expireAt
  {
    hide Step;
    if es != [] {
      var before, e := Run(es[..|es| - 1]), es[|es| - 1];
      EarlyRunIsBounded(es[..|es| - 1], ttl, longest);
      forall r | Critical(PcOf(Run(es), r)) ensures ttl <= PcOf(Run(es), r).expireAt {
        StepKeepsExpiry(before, e, ttl, r);
      }
    }
  }

  lemma StepKeepsExpiry(s: System, e: Event, ttl: nat, r: nat)
    requires Critical(PcOf(s, r)) ==> ttl <= PcOf(s, r).expireAt
    requires e.action.TryLock? ==> e.action.ttl == ttl
    ensures Critical(PcOf(Step(s, e), r)) ==> ttl <= PcOf(Step(s, e), r).expireAt
  {
    if r != e.req { assert PcOf(Step(s, e), r) == PcOf(s, r); }
  }

  /** With locks of one TTL, no interleaving whose critical sections last at most
      `longest` creates the conversation twice, if and only if `longest` is at most
      that TTL. */
  lemma {:induction false} CreatedOnceIffSectionsFitTtl(ttl: nat, longest: nat)
    ensures (forall es :: BoundedRun(es, ttl, longest) ==> |Run(es).created| <= 1) <==> longest <= ttl
  {
    hide Run, BoundedRun, TimelyRun, PossibleRun;
    if longest <= ttl {
      forall es | BoundedRun(es, ttl, longest) ensures |Run(es).created| <= 1 {
        ShortSectionsAreTimely(es, ttl, longest);
        ConversationCreatedOnce(es);
      }
    } else {
      LateCreatorForks(ttl);
      EarlyRunIsBounded(BothPersist(ttl), ttl, longest);
      assert |Run(BothPersist(ttl)).created| == 2;
    }
  }
}
