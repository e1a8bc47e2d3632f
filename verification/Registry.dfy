/** The in-flight requests of one connection: registration by request id, the
    separate steps of done, stop, and the teardown that waits for all of them. */
module Registry {

  /** One call of Begin. */
  type Handle = nat

  /** How far the goroutine of a request is in its done function. */
  datatype Phase =
    | Running    // done not called yet
    | Cancelled  // done has cancelled the context, entry still there
    | Removed    // entry deleted, WaitGroup not yet told
    | Finished

  /** How far the connection is: reading frames, or tearing down. */
  datatype Teardown = Serving | CancellingAll | Waiting | Closed

  datatype Conn = Conn(
    inflight: map<string, Handle>,
    ids: map<Handle, string>, phases: map<Handle, Phase>, cancelled: set<Handle>,
    waitCount: int, teardown: Teardown)

  const START := Conn(map[], map[], map[], {}, 0, Serving)

  datatype Event =
    | Begin(id: string)            // dispatch of a chat frame
    | Stop(id: string)             // dispatch of a stop frame
    | DoneCancel(handle: Handle)   // done, first step
    | DoneDelete(handle: Handle)   // done, under the lock
    | DoneWait(handle: Handle)     // done, wg.Done
    | DoneAgain(handle: Handle)    // any further call of done
    | StartTeardown                // the read loop ended: cancelConn
    | CancelAll
    | WaitReturns                  // wg.Wait came back

  function NextHandle(c: Conn): Handle { |c.phases| }

  function PhaseOf(c: Conn, h: Handle): Phase {
    if h in c.phases then c.phases[h] else Finished
  }

  function IdOf(c: Conn, h: Handle): string {
    if h in c.ids then c.ids[h] else ""
  }

  function AdvanceTo(c: Conn, h: Handle, p: Phase): Conn {
    c.(phases := c.phases[h := p])
  }

  function Step(c: Conn, e: Event): Conn {
    match e
    case Begin(id) =>
      if id in c.inflight then c
      else
        var h := NextHandle(c);
        c.(inflight := c.inflight[id := h], ids := c.ids[h := id], phases := c.phases[h := Running],
           waitCount := c.waitCount + 1)
    case Stop(id) => if id in c.inflight then c.(cancelled := c.cancelled + {c.inflight[id]}) else c
    case DoneCancel(h) => AdvanceTo(c.(cancelled := c.cancelled + {h}), h, Cancelled)
    case DoneDelete(h) =>
      AdvanceTo(c.(inflight := c.inflight - {IdOf(c, h)}), h, Removed)
    case DoneWait(h) => AdvanceTo(c.(waitCount := c.waitCount - 1), h, Finished)
    case DoneAgain(h) => c
    case StartTeardown => c.(teardown := CancellingAll, cancelled := c.cancelled + c.phases.Keys)
    case CancelAll => c.(teardown := Waiting, cancelled := c.cancelled + (set id | id in c.inflight :: c.inflight[id]))
    case WaitReturns => c.(teardown := Closed)
  }

  /** The read loop begins and stops requests only while it serves and tears down
      in order; done runs its steps in order and once; Wait returns at zero. */
  ghost predicate Possible(c: Conn, e: Event) {
    match e
    case Begin(_) => c.teardown.Serving?
    case Stop(_) => c.teardown.Serving?
    case DoneCancel(h) => PhaseOf(c, h).Running?
    case DoneDelete(h) => PhaseOf(c, h).Cancelled?
    case DoneWait(h) => PhaseOf(c, h).Removed?
    case DoneAgain(h) => h in c.phases && PhaseOf(c, h).Finished?
    case StartTeardown => c.teardown.Serving?
    case CancelAll => c.teardown.CancellingAll?
    case WaitReturns => c.teardown.Waiting? && c.waitCount == 0
  }

  function Run(es: seq<Event>): Conn {
    if es == [] then START else Step(Run(es[..|es| - 1]), es[|es| - 1])
  }

  ghost predicate PossibleRun(es: seq<Event>) {
    es == [] || (PossibleRun(es[..|es| - 1]) && Possible(Run(es[..|es| - 1]), es[|es| - 1]))
  }

  /** The registry as the goroutines of one connection use it, one method for each
      section that runs under the lock. */
  class RequestRegistry {
    var inflight: map<string, Handle>
    var ids: map<Handle, string>
    var phases: map<Handle, Phase>
    var cancelled: set<Handle>
    var waitCount: int
    var teardown: Teardown

    function Value(): Conn
      reads this
    {
      Conn(inflight, ids, phases, cancelled, waitCount, teardown)
    }

    constructor ()
      ensures Value() == START
    {
      inflight, ids, phases, cancelled, waitCount, teardown := map[], map[], map[], {}, 0, Serving;
    }

    method BeginRequest(id: string) returns (handle: Handle, ok: bool)
      modifies this
      ensures Value() == Step(old(Value()), Begin(id))
      ensures ok <==> id !in old(inflight)
      ensures ok ==> handle == NextHandle(old(Value())) && inflight[id] == handle
    {
      handle := |phases|;
      if id in inflight { return handle, false; }
      inflight := inflight[id := handle];
      ids, phases := ids[handle := id], phases[handle := Running];
      waitCount := waitCount + 1;
      return handle, true;
    }

    method StopRequest(id: string) returns (found: bool)
      modifies this
      ensures Value() == Step(old(Value()), Stop(id)) && found == (id in old(inflight))
      ensures found ==> cancelled == old(cancelled) + {old(inflight)[id]}
      ensures !found ==> cancelled == old(cancelled)
    {
      found := id in inflight;
      if found { cancelled := cancelled + {inflight[id]}; }
    }

    method Delete(handle: Handle)
      modifies this
      ensures Value() == Step(old(Value()), DoneDelete(handle))
    {
      inflight := inflight - {if handle in ids then ids[handle] else ""};
      phases := phases[handle := Removed];
    }

    /** Copies the cancel functions under the lock, then calls them. */
    method CancelEvery()
      modifies this
      ensures Value() == Step(old(Value()), CancelAll)
      ensures cancelled == old(cancelled) + old(inflight).Values
    {
      var left := inflight.Keys;
      var cancels := {};
      while left != {}
        invariant left <= inflight.Keys && inflight == old(inflight)
        invariant Value() == old(Value())
        invariant cancels == set id | id in inflight && id !in left :: inflight[id]
        decreases left
      {
        var id :| id in left;
        left := left - {id};
        cancels := cancels + {inflight[id]};
      }
      assert cancels == set id | id in inflight :: inflight[id];
      assert cancels == inflight.Values;
      cancelled := cancelled + cancels;
      teardown := Waiting;
    }
  }

  // ---- what every run keeps ----

  ghost function Unfinished(c: Conn): set<Handle> {
    set h | h in c.phases && !c.phases[h].Finished?
  }

  ghost predicate Registered(c: Conn, h: Handle) {
    h in c.phases && (c.phases[h].Running? || c.phases[h].Cancelled?)
  }

  ghost predicate Numbered(c: Conn) {
    && c.ids.Keys == c.phases.Keys
    && forall h :: h in c.phases ==> h < |c.phases|
  }

  /** Entries and registered requests belong to each other, one to one. */
  ghost predicate EntriesMatch(c: Conn) {
    && (forall id :: id in c.inflight ==> Registered(c, c.inflight[id]) && IdOf(c, c.inflight[id]) == id)
    && (forall h :: Registered(c, h) ==> IdOf(c, h) in c.inflight && c.inflight[IdOf(c, h)] == h)
  }

  ghost predicate Counted(c: Conn) {
    c.waitCount == |Unfinished(c)|
  }

  /** Once teardown began every request's context is cancelled; once Wait came
      back nothing is unfinished. */
  ghost predicate TornDown(c: Conn) {
    && (!c.teardown.Serving? ==> forall h :: h in c.phases ==> h in c.cancelled)
    && (c.teardown.Closed? ==> Unfinished(c) == {})
  }

  lemma StepKeepsNumbered(c: Conn, e: Event)
    requires Numbered(c) && Possible(c, e)
    ensures Numbered(Step(c, e))
  {
    var c' := Step(c, e);
    if c'.phases.Keys == c.phases.Keys {
      assert |c'.phases| == |c'.phases.Keys| == |c.phases.Keys| == |c.phases|;
    } else {
      assert c'.phases.Keys == c.phases.Keys + {NextHandle(c)};
      assert |c'.phases| == |c'.phases.Keys| == |c.phases.Keys| + 1;
    }
  }

  lemma StepKeepsEntries(c: Conn, e: Event)
    requires Numbered(c) && EntriesMatch(c) && Possible(c, e)
    ensures EntriesMatch(Step(c, e))
  {
    hide EntriesMatch, Numbered;
    match e {
      case Begin(id) => BeginKeepsEntries(c, id);
      case DoneDelete(h) => DeleteKeepsEntries(c, h);
      case _ =>
        SameEntries(c, e);
    }
  }

  lemma SameEntries(c: Conn, e: Event)
    requires EntriesMatch(c) && Possible(c, e) && !e.Begin? && !e.DoneDelete?
    ensures EntriesMatch(Step(c, e))
  {
    var c' := Step(c, e);
    assert c'.inflight == c.inflight && c'.ids == c.ids;
    forall h ensures Registered(c', h) <==> Registered(c, h) {
    }
    forall h | Registered(c', h) ensures IdOf(c', h) in c'.inflight && c'.inflight[IdOf(c', h)] == h {
      assert Registered(c, h) && IdOf(c', h) == IdOf(c, h);
    }
  }

  lemma BeginKeepsEntries(c: Conn, id: string)
    requires Numbered(c) && EntriesMatch(c)
    ensures EntriesMatch(Step(c, Begin(id)))
  {
    var c' := Step(c, Begin(id));
    forall h | Registered(c', h) ensures IdOf(c', h) in c'.inflight && c'.inflight[IdOf(c', h)] == h {
      if h in c.phases { assert Registered(c, h) && IdOf(c', h) == IdOf(c, h); }
    }
  }

  lemma DeleteKeepsEntries(c: Conn, handle: Handle)
    requires EntriesMatch(c) && PhaseOf(c, handle).Cancelled?
    ensures EntriesMatch(Step(c, DoneDelete(handle)))
  {
    var c' := Step(c, DoneDelete(handle));
    assert Registered(c, handle);
    forall h | Registered(c', h) ensures IdOf(c', h) in c'.inflight && c'.inflight[IdOf(c', h)] == h {
      assert Registered(c, h) && IdOf(c', h) == IdOf(c, h);
    }
  }

  lemma SameUnfinished(c: Conn, e: Event)
    requires Possible(c, e) && !e.Begin? && !e.DoneWait?
    ensures Unfinished(Step(c, e)) == Unfinished(c)
  {
    var c' := Step(c, e);
    forall h ensures h in Unfinished(c') <==> h in Unfinished(c) {
    }
  }

  lemma StepKeepsCounted(c: Conn, e: Event)
    requires Numbered(c) && Counted(c) && Possible(c, e)
    ensures Counted(Step(c, e))
  {
    var c' := Step(c, e);
    match e {
      case Begin(id) =>
        if id !in c.inflight { assert Unfinished(c') == Unfinished(c) + {NextHandle(c)}; }
      case DoneWait(h) =>
        assert h in Unfinished(c) && Unfinished(c') == Unfinished(c) - {h};
      case _ =>
        SameUnfinished(c, e);
    }
  }

  lemma StepKeepsTornDown(c: Conn, e: Event)
    requires Counted(c) && TornDown(c) && Possible(c, e)
    ensures TornDown(Step(c, e))
  {
    var c' := Step(c, e);
    if c'.teardown.Closed? && !c.teardown.Closed? {
      assert |Unfinished(c)| == 0 && Unfinished(c') == Unfinished(c);
    }
    if c.teardown.Closed? && !e.Begin? {
      forall h | h in Unfinished(c') ensures h in Unfinished(c) { }
    }
  }

  lemma {:induction false} RunInvariant(es: seq<Event>)
    requires PossibleRun(es)
    ensures Numbered(Run(es)) && EntriesMatch(Run(es)) && Counted(Run(es)) && TornDown(Run(es))
  {
    hide Numbered, EntriesMatch, Counted, TornDown, Step;
    if es == [] {
      StartInvariant();
    } else {
      var c, e := Run(es[..|es| - 1]), es[|es| - 1];
      RunInvariant(es[..|es| - 1]);
      StepKeepsNumbered(c, e);
      StepKeepsEntries(c, e);
      StepKeepsCounted(c, e);
      StepKeepsTornDown(c, e);
    }
  }

  lemma StartInvariant()
    ensures Numbered(START) && EntriesMatch(START) && Counted(START) && TornDown(START)
  {
    assert Unfinished(START) == {};
  }

  // ---- the results ----

  /** In every interleaving each entry belongs to exactly one request that has not
      left the registry, and the wait count is the number of unfinished requests. */
  lemma {:induction false} EntriesAndWaitCount(es: seq<Event>)
    requires PossibleRun(es)
    ensures var c := Run(es);
            && (forall id :: id in c.inflight ==> Registered(c, c.inflight[id]) && IdOf(c, c.inflight[id]) == id)
            && (forall h :: Registered(c, h) ==> IdOf(c, h) in c.inflight && c.inflight[IdOf(c, h)] == h)
            && c.waitCount == |Unfinished(c)|
  {
    hide Run, PossibleRun, TornDown;
    RunInvariant(es);
  }

  /** In every interleaving a stop cancels the one request that is registered under
      its id, and nothing else; a stop for any other id changes nothing. */
  lemma {:induction false} StopCancelsItsRequest(es: seq<Event>, id: string)
    requires PossibleRun(es) && Run(es).teardown.Serving?
    ensures var c, c' := Run(es), Run(es + [Stop(id)]);
            if exists h :: Registered(c, h) && IdOf(c, h) == id
            then exists h :: Registered(c, h) && IdOf(c, h) == id && c' == c.(cancelled := c.cancelled + {h})
            else c' == c
  {
    assert (es + [Stop(id)])[..|es|] == es;
    hide PossibleRun, TornDown, Counted, Numbered;
    RunInvariant(es);
    var c := Run(es);
    if id in c.inflight { assert Registered(c, c.inflight[id]) && IdOf(c, c.inflight[id]) == id; }
  }

  /** A stop frame reached the request while it was registered. */
  ghost predicate StopHits(c: Conn, e: Event, h: Handle) {
    e.Stop? && e.id in c.inflight && c.inflight[e.id] == h
  }

  ghost predicate StoppedIn(es: seq<Event>, h: Handle) {
    exists i :: 0 <= i < |es| && StopHits(Run(es[..i]), es[i], h)
  }

  lemma StoppedSnoc(es: seq<Event>, h: Handle)
    requires es != []
    ensures StoppedIn(es, h) <==> StoppedIn(es[..|es| - 1], h) || StopHits(Run(es[..|es| - 1]), es[|es| - 1], h)
  {
    hide Run, StopHits;
    var n := |es| - 1;
    assert forall i :: 0 <= i < n ==> es[..n][..i] == es[..i] && es[..n][i] == es[i];
  }

  /** In every interleaving a request's context is cancelled if and only if its own
      done was called, or a stop reached it, or the connection is being torn down. */
  lemma {:induction false} CancelledIff(es: seq<Event>, h: Handle)
    requires PossibleRun(es) && h in Run(es).phases
    ensures var c := Run(es);
            h in c.cancelled <==> !c.phases[h].Running? || StoppedIn(es, h) || !c.teardown.Serving?
  {
    hide StoppedIn, StopHits, Step;
    CancelledAreKnown(es);
    if es != [] {
      var n := |es| - 1;
      var c, e := Run(es[..n]), es[n];
      RunInvariant(es[..n]);
      CancelledAreKnown(es[..n]);
      StoppedSnoc(es, h);
      if h in c.phases {
        CancelledIff(es[..n], h);
      } else {
        NotStoppedBefore(es[..n], h);
      }
      StepCancels(c, e, h);
    }
  }

  lemma StepCancels(c: Conn, e: Event, h: Handle)
    requires Possible(c, e) && Numbered(c) && EntriesMatch(c) && TornDown(c)
    requires c.cancelled <= c.phases.Keys
    requires h in Step(c, e).phases
    ensures var c' := Step(c, e);
            && (h !in c.phases ==> h !in c'.cancelled && c'.phases[h].Running? && c'.teardown.Serving? && !StopHits(c, e, h))
            && (h in c.phases ==>
                  (h in c'.cancelled <==> h in c.cancelled || e == DoneCancel(h) || StopHits(c, e, h) || e.StartTeardown? || (e.CancelAll? && h in c.inflight.Values)))
            && (h in c.phases && c.phases[h].Running? ==> (c'.phases[h].Running? <==> e != DoneCancel(h)))
            && (h in c.phases && !c.phases[h].Running? ==> !c'.phases[h].Running?)
            && (c'.teardown.Serving? <==> c.teardown.Serving? && !e.StartTeardown?)
            && (e.CancelAll? ==> !c.teardown.Serving?)
  {
  }

  lemma {:induction false} CancelledAreKnown(es: seq<Event>)
    requires PossibleRun(es)
    ensures Run(es).cancelled <= Run(es).phases.Keys
  {
    hide Step, Possible, Numbered, EntriesMatch, Counted, TornDown;
    if es != [] {
      CancelledAreKnown(es[..|es| - 1]);
      RunInvariant(es[..|es| - 1]);
      StepKeepsKnown(Run(es[..|es| - 1]), es[|es| - 1]);
    }
  }

  lemma StepKeepsKnown(c: Conn, e: Event)
    requires Possible(c, e) && EntriesMatch(c) && c.cancelled <= c.phases.Keys
    ensures Step(c, e).cancelled <= Step(c, e).phases.Keys
  {
  }

  lemma {:induction false} NotStoppedBefore(es: seq<Event>, h: Handle)
    requires PossibleRun(es) && h !in Run(es).phases
    ensures !StoppedIn(es, h)
  {
    if es != [] {
      NotStoppedBefore(es[..|es| - 1], h);
      RunInvariant(es[..|es| - 1]);
      StoppedSnoc(es, h);
    }
  }

  /** CancelAll by itself cancels every registered request and nothing else. */
  lemma CancelAllReachesEveryEntry(es: seq<Event>)
    requires PossibleRun(es)
    ensures var c := Run(es);
            Step(c, CancelAll).cancelled == c.cancelled + set h | h in c.phases && Registered(c, h)
  {
    hide Run, PossibleRun, TornDown, Counted, Numbered;
    RunInvariant(es);
    var c := Run(es);
    var hit := set id | id in c.inflight :: c.inflight[id];
    forall h ensures h in hit <==> h in c.phases && Registered(c, h) {
      if h in c.phases && Registered(c, h) { assert IdOf(c, h) in c.inflight; }
    }
  }

  /** No step of any done, however late, and no repeated done removes the entry of
      another request, even one that reuses the id; the delete step removes
      exactly its own entry. */
  lemma {:induction false} DoneRemovesOnlyOwn(es: seq<Event>, e: Event)
    requires PossibleRun(es) && Possible(Run(es), e)
    requires e.DoneCancel? || e.DoneDelete? || e.DoneWait? || e.DoneAgain?
    ensures var c, c' := Run(es), Step(Run(es), e);
            forall id :: id in c.inflight && (c.inflight[id] != e.handle || !e.DoneDelete?) ==>
                           id in c'.inflight && c'.inflight[id] == c.inflight[id]
    ensures e.DoneDelete? ==> forall id :: id in Step(Run(es), e).inflight ==> Step(Run(es), e).inflight[id] != e.handle
  {
    hide Run, PossibleRun, TornDown;
    RunInvariant(es);
    var c := Run(es);
    if e.DoneDelete? { assert Registered(c, e.handle); }
  }

  /** After teardown's CancelAll and Wait every request that ever began has been
      cancelled and has finished, and the registry is empty. */
  lemma {:induction false} NothingLeftAfterTeardown(es: seq<Event>)
    requires PossibleRun(es) && Run(es).teardown.Closed?
    ensures var c := Run(es);
            && c.inflight == map[] && c.waitCount == 0
            && forall h :: h in c.phases ==> c.phases[h].Finished? && h in c.cancelled
  {
    hide Run, PossibleRun;
    RunInvariant(es);
    var c := Run(es);
    forall h | h in c.phases ensures c.phases[h].Finished? {
      assert h !in Unfinished(c);
    }
    EntriesUnfinished(c);
    assert forall id :: id !in c.inflight;
  }

  lemma EntriesUnfinished(c: Conn)
    requires EntriesMatch(c)
    ensures forall id :: id in c.inflight ==> c.inflight[id] in Unfinished(c)
  {
  }
}
