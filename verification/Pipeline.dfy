/** One chat request from admission to its last frame. */
module Pipeline {
  import opened Options
  import opened Text
  import L = Limiter
  import M = Moderation
  import Sse

  // ---- what the client sees ----

  datatype Frame =
    | Chunk(delta: string)
    | Done(conversationId: string, totalTokens: nat)
    | Blocked(fallback: string)
    | Error(code: string)

  predicate IsTerminal(f: Frame) { !f.Chunk? }

  function Terminals(frames: seq<Frame>): seq<Frame> {
    if frames == [] then []
    else Terminals(frames[..|frames| - 1]) + (if IsTerminal(frames[|frames| - 1]) then [frames[|frames| - 1]] else [])
  }

  /** The text that the client shows: all deltas together. */
  function ChunkText(frames: seq<Frame>): string {
    if frames == [] then ""
    else ChunkText(frames[..|frames| - 1]) + (if frames[|frames| - 1].Chunk? then frames[|frames| - 1].delta else "")
  }

  ghost predicate NoChunkAfterTerminal(frames: seq<Frame>) {
    forall i, j :: 0 <= i < j < |frames| && IsTerminal(frames[i]) ==> IsTerminal(frames[j])
  }

  function MakeDone(conversationId: string, totalTokens: int): Frame {
    Done(conversationId, if totalTokens < 0 then 0 else totalTokens % 0x1_0000_0000)
  }

  // ---- what a request depends on ----

  datatype Request = Request(playerId: string, npcId: string, query: string)

  datatype Resolution = StoreFailed | Resolved(conversationId: string, locked: bool)

  datatype CallError =
    | Broken(failure: Sse.StreamFailure)
    | HttpStatus(status: int)
    | DeadlineExceeded
    | OtherError

  datatype Upstream = Refused(error: CallError) | Streams(events: seq<Sse.Event>, tail: Sse.Tail)

  /** The outcomes of everything the handler calls: whether it is wired up, the
      limiter as Allow finds it, the conversation lookup, the context, the
      moderator, the upstream call, whether the client cancelled, and whether
      accounting and the conversation store fail afterwards. */
  datatype World = World(
    ready: bool, limiterConfig: L.Config, limiter: L.State, now: nat,
    resolution: Resolution, contextBuilt: bool, moderator: M.Moderator,
    upstream: Upstream, cancelled: bool, accountingFails: bool, storeFails: bool)

  /** Everything the request did: frames sent, limiter settlements, the id it
      stored, the generation it asked upstream to stop, whether it released the lock. */
  datatype Trace = Trace(
    frames: seq<Frame>, settlements: seq<L.Settlement>, stored: Option<string>, stopped: Option<string>, unlocked: bool)

  const MAX_QUERY_RUNES: nat := 4096

  function Settings(w: World): M.Settings {
    M.Settings(w.moderator, M.DEFAULT_MAX_SEGMENT_BYTES, M.DEFAULT_OVERLAP_RUNES)
  }

  // ---- how far a request gets ----

  function LimiterVerdict(req: Request, w: World): L.Verdict {
    L.Allow(w.limiterConfig, w.limiter, req.playerId, 0, w.now).1
  }

  predicate WellFormed(req: Request) {
    TrimSpace(req.npcId) != "" && 0 < |TrimSpace(req.query)| <= MAX_QUERY_RUNES
  }

  /** Neither field may be blank, and the trimmed query has at most 4096 runes. */
  lemma WellFormedMeans(req: Request)
    ensures WellFormed(req) <==> !AllSpace(req.npcId) && !AllSpace(req.query) && |TrimSpace(req.query)| <= 4096
  {
    hide TrimSpace, AllSpace;
    BlankIffAllSpace(req.npcId);
    BlankIffAllSpace(req.query);
  }

  predicate Admitted(req: Request, w: World) {
    WellFormed(req) && w.ready && LimiterVerdict(req, w).Admitted?
  }

  predicate GoesUpstream(req: Request, w: World) {
    && Admitted(req, w) && w.resolution.Resolved? && w.contextBuilt
    && !M.Refuses(w.moderator, TrimSpace(req.query))
  }

  function DeltasOf(u: Upstream): seq<string> {
    if u.Streams? then Sse.Deltas(u.events) else []
  }

  function FailureOf(u: Upstream): Option<CallError> {
    if u.Refused? then Some(u.error)
    else match Sse.FailureOf(u.events, u.tail)
      case None => None
      case Some(f) => Some(Broken(f))
  }

  function ConversationOf(u: Upstream): string {
    if u.Streams? then Sse.ConversationOf(u.events) else ""
  }

  function TokensOf(u: Upstream): int {
    if u.Streams? then Sse.TokensOf(u.events) else 0
  }

  /** The task id of the first message event, "" if there was none. */
  function TaskOf(u: Upstream): string {
    var task := if u.Streams? then Sse.FirstTask(u.events[..Sse.Length(u.events)]) else None;
    if task.Some? then task.value else ""
  }

  predicate IsReplaced(f: Option<CallError>) {
    f.Some? && f.value.Broken? && f.value.failure.Replaced?
  }

  /** A moderation hit while the stream was still running. */
  predicate MidStreamHit(req: Request, w: World) {
    GoesUpstream(req, w) && M.Pushed(Settings(w), DeltasOf(w.upstream)).0.blocked
  }

  /** The stream ended well, was accounted for, and its id was stored. */
  predicate BookedSuccess(req: Request, w: World) {
    && GoesUpstream(req, w) && FailureOf(w.upstream).None?
    && !w.accountingFails && TokensOf(w.upstream) >= 0
    && (ConversationOf(w.upstream) == "" || !w.storeFails)
  }

  /** A booked success whose stream the output filter let through to the end. */
  predicate CleanSuccess(req: Request, w: World) {
    BookedSuccess(req, w) && !M.Verdict(Settings(w), DeltasOf(w.upstream)).0
  }

  /** The stream ended well, but accounting for it or storing its id failed. */
  predicate NotBooked(req: Request, w: World) {
    && GoesUpstream(req, w) && FailureOf(w.upstream).None?
    && (w.accountingFails || TokensOf(w.upstream) < 0 || (ConversationOf(w.upstream) != "" && w.storeFails))
  }

  /** The handler is not wired up, or the conversation or the context is unavailable. */
  predicate NotServed(req: Request, w: World) {
    (WellFormed(req) && !w.ready) || (Admitted(req, w) && (w.resolution.StoreFailed? || !w.contextBuilt))
  }

  /** When a request that was already answered by ChatBlocked is answered again:
      upstream replaces the message, or accounting or storing fails. */
  predicate AnsweredTwice(req: Request, w: World) {
    MidStreamHit(req, w) && (IsReplaced(FailureOf(w.upstream)) || NotBooked(req, w))
  }

  function ClientErrorCode(e: CallError): string {
    match e
    case DeadlineExceeded => "UPSTREAM_TIMEOUT"
    case HttpStatus(status) =>
      if status == 429 then "RATE_LIMITED"
      else if status == 504 || status == 408 then "UPSTREAM_TIMEOUT"
      else "UPSTREAM_ERROR"
    case Broken(UpstreamReported(code)) => if EqualFold(code, "rate_limited") then "RATE_LIMITED" else "UPSTREAM_ERROR"
    case Broken(ReadFailed(deadline)) => if deadline then "UPSTREAM_TIMEOUT" else "UPSTREAM_ERROR"
    case _ => "UPSTREAM_ERROR"
  }

  predicate EqualFold(a: string, b: string) {
    |a| == |b| && forall i :: 0 <= i < |a| ==> AsciiLower(a[i]) == AsciiLower(b[i])
  }

  function AsciiLower(c: char): char {
    if 'A' <= c <= 'Z' then c - 'A' + 'a' else c
  }

  function LimiterErrorCode(v: L.Verdict): string {
    if v.PlayerRequired? || v.NegativeEstimate? then "UPSTREAM_ERROR" else "RATE_LIMITED"
  }

  lemma AppendFrame(frames: seq<Frame>, f: Frame)
    ensures Terminals(frames + [f]) == Terminals(frames) + (if IsTerminal(f) then [f] else [])
    ensures ChunkText(frames + [f]) == ChunkText(frames) + (if f.Chunk? then f.delta else "")
    ensures NoChunkAfterTerminal(frames) && (f.Chunk? ==> Terminals(frames) == []) ==> NoChunkAfterTerminal(frames + [f])
  {
    assert (frames + [f])[..|frames|] == frames;
    assert NoChunkAfterTerminal(frames) && (f.Chunk? ==> Terminals(frames) == []) ==> NoChunkAfterTerminal(frames + [f]) by {
      StillInOrder(frames, f);
    }
  }

  lemma StillInOrder(frames: seq<Frame>, f: Frame)
    ensures NoChunkAfterTerminal(frames) && (f.Chunk? ==> Terminals(frames) == []) ==> NoChunkAfterTerminal(frames + [f])
  {
    hide Terminals;
    if Terminals(frames) == [] { NoTerminals(frames); }
  }

  lemma {:induction false} NoTerminals(frames: seq<Frame>)
    requires Terminals(frames) == []
    ensures forall i :: 0 <= i < |frames| ==> !IsTerminal(frames[i])
  {
    if frames != [] { NoTerminals(frames[..|frames| - 1]); }
  }

  // ---- the stream ----

  /** onDelta for every delta: push it through the filter, forward what passed,
      and on a hit send ChatBlocked and drop the rest. */
  method ForwardDeltas(filter: M.OutputFilter, deltas: seq<string>) returns (frames: seq<Frame>, outputBlocked: bool)
    requires filter.Value() == M.FRESH
    modifies filter
    ensures filter.Value() == M.Pushed(filter.cfg, deltas).0 && outputBlocked == filter.Value().blocked
    ensures ChunkText(frames) == M.Pushed(filter.cfg, deltas).1
    ensures outputBlocked ==> filter.cfg.mod.PolicyModerator?
    ensures Terminals(frames) == (if outputBlocked then [Blocked(filter.cfg.mod.outputFallback)] else [])
    ensures NoChunkAfterTerminal(frames)
  {
    hide M.Drain, Terminals, ChunkText;
    frames, outputBlocked := [], false;
    assert Terminals([]) == [] && ChunkText([]) == "" by { EmptyFrames(); }
    for i := 0 to |deltas|
      invariant filter.Value() == M.Pushed(filter.cfg, deltas[..i]).0 && outputBlocked == filter.Value().blocked
      invariant ChunkText(frames) == M.Pushed(filter.cfg, deltas[..i]).1
      invariant outputBlocked ==> filter.cfg.mod.PolicyModerator?
      invariant Terminals(frames) == (if outputBlocked then [Blocked(filter.cfg.mod.outputFallback)] else [])
      invariant NoChunkAfterTerminal(frames)
    {
      assert deltas[..i + 1][..i] == deltas[..i];
      if outputBlocked { continue; }
      var before := filter.Value();
      var o := filter.PushDelta(deltas[i]);
      DrainOutcome(filter.cfg, before.(buf := before.buf + deltas[i]), false);
      if o.blocked {
        outputBlocked := true;
        AppendFrame(frames, Blocked(o.fallback));
        frames := frames + [Blocked(o.fallback)];
      } else if o.emit != "" {
        AppendFrame(frames, Chunk(o.emit));
        frames := frames + [Chunk(o.emit)];
      }
    }
    assert deltas[..|deltas|] == deltas;
  }

  lemma EmptyFrames()
    ensures Terminals([]) == [] && ChunkText([]) == ""
  {
  }

  lemma DrainOutcome(c: M.Settings, f: M.Filter, final: bool)
    requires !f.blocked
    ensures var (f', o) := M.Drain(c, f, final);
            && o.blocked == f'.blocked
            && (o.blocked ==> o.emit == "" && c.mod.PolicyModerator? && o.fallback == c.mod.outputFallback)
  {
  }

  method CallUpstream(u: Upstream)
    returns (conversationId: string, totalTokens: int, failure: Option<CallError>, deltas: seq<string>, taskId: string)
    ensures conversationId == ConversationOf(u) && totalTokens == TokensOf(u)
    ensures failure == FailureOf(u) && deltas == DeltasOf(u) && taskId == TaskOf(u)
    ensures u.Streams? ==>
              && deltas == Sse.Deltas(u.events) && conversationId == Sse.ConversationOf(u.events) && totalTokens == Sse.TokensOf(u.events)
              && (failure == None <==> Sse.FailureOf(u.events, u.tail) == None)
              && (failure.Some? ==> failure.value == Broken(Sse.FailureOf(u.events, u.tail).value))
    ensures u.Refused? ==> failure == Some(u.error) && deltas == [] && conversationId == "" && totalTokens == 0 && taskId == ""
  {
    match u
    case Refused(error) => return "", 0, Some(error), [], "";
    case Streams(events, tail) =>
      var result, streamFailure, ds, task := Sse.ParseSSE(events, tail);
      conversationId, totalTokens, deltas := result.conversationId, result.totalTokens, ds;
      failure := if streamFailure.None? then None else Some(Broken(streamFailure.value));
      taskId := if task.Some? then task.value else "";
  }

  // ---- what every request obeys ----

  /** At least one terminal frame and no chunk after the first. Without a hit in
      mid-stream there is exactly one and it is last. After a hit the first is that
      ChatBlocked, no ChatDone follows, and there is a second exactly when
      AnsweredTwice says so. */
  ghost predicate FramesInOrder(req: Request, w: World, t: Trace) {
    var terminals := Terminals(t.frames);
    && NoChunkAfterTerminal(t.frames)
    && |terminals| == (if AnsweredTwice(req, w) then 2 else 1)
    && (!MidStreamHit(req, w) ==> t.frames != [] && IsTerminal(t.frames[|t.frames| - 1]))
    && (MidStreamHit(req, w) ==>
          && w.moderator.PolicyModerator? && terminals[0] == Blocked(w.moderator.outputFallback)
          && forall i :: 0 <= i < |terminals| ==> !terminals[i].Done?)
  }

  /** An admitted request settles once, in a way that frees its slot: as a failure
      when upstream failed, as cancelled when the client did, else as a success.
      A request that was not admitted settles nothing. */
  ghost predicate SettlesOnce(req: Request, w: World, t: Trace) {
    if !Admitted(req, w) then t.settlements == []
    else
      var failed := GoesUpstream(req, w) && FailureOf(w.upstream).Some? &&
                    !IsReplaced(FailureOf(w.upstream)) && !MidStreamHit(req, w);
      && |t.settlements| == 1
      && (t.settlements[0].Failure? <==> failed && !w.cancelled)
      && (t.settlements[0].Cancelled? <==> failed && w.cancelled)
      && (t.settlements[0].Success? ==>
            && t.settlements[0].player == req.playerId && TrimSpace(req.playerId) != ""
            && t.settlements[0].usedTokens == (if GoesUpstream(req, w) then TokensOf(w.upstream) else 0))
  }

  /** The forwarded text is a prefix of what upstream streamed, free of short
      banned words. A ChatDone that is not a cancelled request's comes exactly from
      a clean booked success, and then all of the stream was forwarded. */
  ghost predicate TextFaithful(req: Request, w: World, t: Trace) {
    var text := ChunkText(t.frames);
    && text <= (if GoesUpstream(req, w) then Concat(DeltasOf(w.upstream)) else "")
    && M.Clean(Settings(w), text)
    && (CleanSuccess(req, w) ==>
          && text == Concat(DeltasOf(w.upstream))
          && |Terminals(t.frames)| == 1 && ReportsDone(Terminals(t.frames)[0], w.upstream))
    && (HasDone(t.frames) ==> CleanSuccess(req, w) || t.settlements == [L.Cancelled])
  }

  /** A ChatDone with the stream's conversation and its token count, which travels
      as 32 bits and is 0 if upstream gave a negative one. */
  ghost predicate ReportsDone(f: Frame, u: Upstream) {
    && f.Done? && f.conversationId == ConversationOf(u) && f.totalTokens < 0x1_0000_0000
    && (TokensOf(u) < 0 ==> f.totalTokens == 0)
    && (0 <= TokensOf(u) < 0x1_0000_0000 ==> f.totalTokens == TokensOf(u))
    && (TokensOf(u) >= 0x1_0000_0000 ==> exists k: nat :: TokensOf(u) == f.totalTokens + k * 0x1_0000_0000)
  }

  lemma DoneReports(u: Upstream)
    ensures ReportsDone(MakeDone(ConversationOf(u), TokensOf(u)), u)
  {
    hide ConversationOf, TokensOf;
    var tokens := TokensOf(u);
    if tokens >= 0 { assert tokens == tokens % 0x1_0000_0000 + tokens / 0x1_0000_0000 * 0x1_0000_0000; }
  }

  /** The code that the client gets for a failed call: a timeout for an expired
      deadline, here, upstream or while reading; a rate limit for upstream's own,
      by status or by an error event of that name in any case; else an error. */
  ghost predicate CodeFits(e: CallError, code: string) {
    var timeout := e.DeadlineExceeded? || (e.HttpStatus? && (e.status == 408 || e.status == 504)) ||
                   (e.Broken? && e.failure == Sse.ReadFailed(true));
    var limited := (e.HttpStatus? && e.status == 429) ||
                   (e.Broken? && e.failure.UpstreamReported? && SaysRateLimited(e.failure.code));
    && (code == "UPSTREAM_TIMEOUT" <==> timeout)
    && (code == "RATE_LIMITED" <==> limited)
    && (code == "UPSTREAM_ERROR" <==> !timeout && !limited)
  }

  ghost predicate SaysRateLimited(code: string) {
    |code| == 12 && forall i :: 0 <= i < 12 ==> code[i] == "rate_limited"[i] || code[i] == "RATE_LIMITED"[i]
  }

  lemma FoldsToRateLimited(code: string)
    ensures EqualFold(code, "rate_limited") <==> SaysRateLimited(code)
  {
    var low, high := "rate_limited", "RATE_LIMITED";
    assert forall i :: 0 <= i < 12 ==> AsciiLower(low[i]) == low[i] == AsciiLower(high[i]) && ('a' <= low[i] <= 'z' || low[i] == high[i]);
    forall i | 0 <= i < |code| && i < 12
      ensures AsciiLower(code[i]) == AsciiLower(low[i]) <==> code[i] == low[i] || code[i] == high[i]
    {
    }
  }

  lemma ErrorCodeFits(e: CallError)
    ensures CodeFits(e, ClientErrorCode(e))
  {
    hide EqualFold, SaysRateLimited;
    if e.Broken? && e.failure.UpstreamReported? { FoldsToRateLimited(e.failure.code); }
  }

  ghost predicate HasDone(frames: seq<Frame>) {
    exists i :: 0 <= i < |Terminals(frames)| && Terminals(frames)[i].Done?
  }

  /** The id that upstream named is stored by a booked success and by a cancelled
      request, unless the store fails, and by no other request. */
  ghost predicate StoresId(req: Request, w: World, t: Trace) {
    var id := ConversationOf(w.upstream);
    t.stored ==
    if (BookedSuccess(req, w) || t.settlements == [L.Cancelled]) && id != "" && !w.storeFails then Some(id) else None
  }

  /** The last terminal frame fits the way the request ended, whichever it was, and
      upstream is asked to stop exactly when the client cancelled a task it had
      heard of. */
  ghost predicate AnswerFits(req: Request, w: World, t: Trace) {
    var terminals := Terminals(t.frames);
    && (!WellFormed(req) ==> terminals == [Error("BAD_REQUEST")])
    && (NotServed(req, w) ==> terminals == [Error("INTERNAL")])
    && (WellFormed(req) && w.ready && !Admitted(req, w) ==>
          terminals == [Error(if TrimSpace(req.playerId) == "" then "UPSTREAM_ERROR" else "RATE_LIMITED")])
    && (Admitted(req, w) && w.resolution.Resolved? && w.contextBuilt && M.Refuses(w.moderator, TrimSpace(req.query)) ==>
          terminals == [Blocked(w.moderator.inputFallback)])
    && (t.settlements == [L.Failure] ==>
          && FailureOf(w.upstream).Some? && |terminals| == 1 && terminals[0].Error?
          && CodeFits(FailureOf(w.upstream).value, terminals[0].code))
    && (t.settlements == [L.Cancelled] ==> |terminals| == 1 && ReportsDone(terminals[0], w.upstream))
    && (GoesUpstream(req, w) && IsReplaced(FailureOf(w.upstream)) ==>
          terminals != [] && terminals[|terminals| - 1] == Blocked(FailureOf(w.upstream).value.failure.fallback))
    && (NotBooked(req, w) ==> terminals != [] && terminals[|terminals| - 1] == Error("INTERNAL"))
    && (BookedSuccess(req, w) && !CleanSuccess(req, w) ==>
          w.moderator.PolicyModerator? && terminals == [Blocked(w.moderator.outputFallback)])
    && (t.stopped.Some? <==> t.settlements == [L.Cancelled] && TaskOf(w.upstream) != "")
    && (t.stopped.Some? ==> t.stopped.value == TaskOf(w.upstream))
  }

  function Answer(f: Frame, settlements: seq<L.Settlement>): Trace {
    Trace([f], settlements, None, None, false)
  }

  lemma OneFrame(f: Frame)
    requires IsTerminal(f)
    ensures Terminals([f]) == [f] && ChunkText([f]) == "" && NoChunkAfterTerminal([f])
  {
    assert [f][..0] == [];
  }

  /** A frame sent instead of going upstream. */
  lemma EarlyAnswer(req: Request, w: World, f: Frame, settlements: seq<L.Settlement>)
    requires !GoesUpstream(req, w) && IsTerminal(f)
    requires settlements != [L.Failure] && settlements != [L.Cancelled]
    requires !WellFormed(req) ==> f == Error("BAD_REQUEST")
    requires NotServed(req, w) ==> f == Error("INTERNAL")
    requires WellFormed(req) && w.ready && !Admitted(req, w) ==>
               f == Error(if TrimSpace(req.playerId) == "" then "UPSTREAM_ERROR" else "RATE_LIMITED")
    requires Admitted(req, w) && !NotServed(req, w) ==>
               f == Blocked(M.CheckInput(w.moderator, TrimSpace(req.query)).1)
    ensures var t := Answer(f, settlements);
            FramesInOrder(req, w, t) && TextFaithful(req, w, t) && StoresId(req, w, t) && AnswerFits(req, w, t)
  {
    hide Terminals, ChunkText, L.Allow, TrimSpace, M.Hits, FailureOf;
    OneFrame(f);
    M.StartInvariant(Settings(w));
  }

  /** What forwarding the deltas established. */
  ghost predicate Forwarded(req: Request, w: World, frames: seq<Frame>) {
    && GoesUpstream(req, w)
    && NoChunkAfterTerminal(frames)
    && ChunkText(frames) == M.Pushed(Settings(w), DeltasOf(w.upstream)).1
    && (MidStreamHit(req, w) ==>
          w.moderator.PolicyModerator? && Terminals(frames) == [Blocked(w.moderator.outputFallback)])
    && (!MidStreamHit(req, w) ==> Terminals(frames) == [])
  }

  lemma ForwardedText(req: Request, w: World, frames: seq<Frame>)
    requires Forwarded(req, w, frames)
    ensures ChunkText(frames) <= Concat(DeltasOf(w.upstream)) && M.Clean(Settings(w), ChunkText(frames))
  {
    hide Terminals, ChunkText, M.Pushed, M.Clean, Concat, M.Refuses;
    M.PushedInvariant(Settings(w), DeltasOf(w.upstream));
  }

  /** Ending with one more terminal frame that is no ChatDone after a hit. */
  lemma EndWith(req: Request, w: World, frames: seq<Frame>, f: Frame, t: Trace)
    requires Forwarded(req, w, frames) && IsTerminal(f) && t.frames == frames + [f]
    requires MidStreamHit(req, w) ==> AnsweredTwice(req, w) && !f.Done?
    requires !CleanSuccess(req, w) && (f.Done? ==> t.settlements == [L.Cancelled])
    ensures FramesInOrder(req, w, t) && TextFaithful(req, w, t)
    ensures Terminals(t.frames) != [] && Terminals(t.frames)[|Terminals(t.frames)| - 1] == f
    ensures !MidStreamHit(req, w) ==> Terminals(t.frames) == [f]
  {
    hide Terminals, ChunkText, M.Pushed, M.Clean, M.Verdict, Concat, GoesUpstream, BookedSuccess;
    ForwardedText(req, w, frames);
    AppendFrame(frames, f);
    assert ChunkText(frames) + "" == ChunkText(frames);
  }

  /** Ending with the ChatBlocked of a hit in mid-stream. */
  lemma EndBlocked(req: Request, w: World, t: Trace)
    requires Forwarded(req, w, t.frames) && MidStreamHit(req, w) && !AnsweredTwice(req, w)
    ensures FramesInOrder(req, w, t) && TextFaithful(req, w, t)
  {
    hide Terminals, ChunkText, M.Clean, Concat, GoesUpstream, BookedSuccess;
    ForwardedText(req, w, t.frames);
  }

  /** Flushing the rest of a stream that was not blocked in mid-stream. */
  lemma FlushFacts(c: M.Settings, deltas: seq<string>)
    requires !M.Pushed(c, deltas).0.blocked
    ensures var (f, emitted) := M.Pushed(c, deltas);
            var o := M.Flush(c, f).1;
            && (o.blocked <==> M.Verdict(c, deltas).0)
            && (o.blocked ==> c.mod.PolicyModerator? && o.fallback == c.mod.outputFallback)
            && (!o.blocked ==> emitted + o.emit == Concat(deltas) && M.Clean(c, Concat(deltas)))
  {
    hide M.Drain, M.Pushed, M.Clean, M.Refuses, Concat;
    var f := M.Pushed(c, deltas).0;
    DrainOutcome(c, f, true);
    M.VerdictFacts(c, deltas);
  }

  lemma ReportIsTerminal(f: Frame, u: Upstream)
    requires ReportsDone(f, u)
    ensures IsTerminal(f)
  {
  }

  /** The rest of the stream and ChatDone. */
  lemma EndDone(req: Request, w: World, frames: seq<Frame>, rest: string, frames': seq<Frame>, t: Trace)
    requires Forwarded(req, w, frames) && !MidStreamHit(req, w) && CleanSuccess(req, w)
    requires ChunkText(frames) + rest == Concat(DeltasOf(w.upstream)) && M.Clean(Settings(w), Concat(DeltasOf(w.upstream)))
    requires frames' == if rest == "" then frames else frames + [Chunk(rest)]
    requires |t.frames| == |frames'| + 1 && frames' == t.frames[..|frames'|] && ReportsDone(t.frames[|frames'|], w.upstream)
    ensures FramesInOrder(req, w, t) && TextFaithful(req, w, t)
  {
    hide Terminals, ChunkText, M.Pushed, M.Clean, M.Verdict, Concat, NoChunkAfterTerminal, HasDone, CleanSuccess, MidStreamHit,
      NotBooked, IsReplaced, ConversationOf, TokensOf, DeltasOf, GoesUpstream, ReportsDone;
    assert GoesUpstream(req, w) by { ForwardedMeans(req, w, frames); }
    var done := t.frames[|frames'|];
    assert t.frames == frames' + [done];
    assert IsTerminal(done) by { ReportIsTerminal(done, w.upstream); }
    AppendFrame(frames, Chunk(rest));
    AppendFrame(frames', done);
    assert ChunkText(frames) + "" == ChunkText(frames);
    assert ChunkText(frames') + "" == ChunkText(frames');
  }

  /** What follows a failed upstream call. */
  method AfterFailure(req: Request, w: World, frames: seq<Frame>, outputBlocked: bool, taskId: string) returns (t: Trace)
    requires Forwarded(req, w, frames) && outputBlocked == MidStreamHit(req, w) && FailureOf(w.upstream).Some?
    requires taskId == TaskOf(w.upstream)
    ensures FramesInOrder(req, w, t) && SettlesOnce(req, w, t) && TextFaithful(req, w, t) && StoresId(req, w, t)
    ensures AnswerFits(req, w, t) && !t.unlocked
  {
    hide Forwarded, FramesInOrder, TextFaithful, Terminals, ChunkText, M.Pushed, Sse.FailureOf, LimiterVerdict, DeltasOf,
      M.Hits, TrimSpace, ConversationOf, TokensOf, TaskOf;
    assert GoesUpstream(req, w) by { ForwardedMeans(req, w, frames); }
    AdmittedPlayer(req, w);
    var error := FailureOf(w.upstream).value;
    var conversationId, totalTokens := ConversationOf(w.upstream), TokensOf(w.upstream);
    if IsReplaced(Some(error)) {
      var f := Blocked(error.failure.fallback);
      t := Trace(frames + [f], [L.Success(req.playerId, totalTokens)], None, None, false);
      EndWith(req, w, frames, f, t);
      return;
    }
    if outputBlocked {
      t := Trace(frames, [L.Success(req.playerId, totalTokens)], None, None, false);
      EndBlocked(req, w, t);
      return;
    }
    if w.cancelled {
      var stopped := if taskId == "" then None else Some(taskId);
      var stored := if conversationId == "" || w.storeFails then None else Some(conversationId);
      var f := MakeDone(conversationId, totalTokens);
      DoneReports(w.upstream);
      t := Trace(frames + [f], [L.Cancelled], stored, stopped, false);
      EndWith(req, w, frames, f, t);
      return;
    }
    var f := Error(ClientErrorCode(error));
    ErrorCodeFits(error);
    t := Trace(frames + [f], [L.Failure], None, None, false);
    EndWith(req, w, frames, f, t);
  }

  lemma ForwardedMeans(req: Request, w: World, frames: seq<Frame>)
    requires Forwarded(req, w, frames)
    ensures GoesUpstream(req, w)
  {
  }

  /** Record's early return for a blank player is out of reach after Allow. */
  lemma AdmittedPlayer(req: Request, w: World)
    requires Admitted(req, w)
    ensures TrimSpace(req.playerId) != ""
  {
  }

  /** Only a blank player is not told of a rate limit. */
  lemma RefusalCode(req: Request, w: World)
    ensures LimiterErrorCode(LimiterVerdict(req, w)) == (if TrimSpace(req.playerId) == "" then "UPSTREAM_ERROR" else "RATE_LIMITED")
  {
  }

  /** What follows an upstream call that ended with message_end. */
  method AfterSuccess(req: Request, w: World, frames: seq<Frame>, outputBlocked: bool, filter: M.OutputFilter) returns (t: Trace)
    requires Forwarded(req, w, frames) && outputBlocked == MidStreamHit(req, w) && FailureOf(w.upstream).None?
    requires filter.cfg == Settings(w) && filter.Value() == M.Pushed(Settings(w), DeltasOf(w.upstream)).0
    modifies filter
    ensures FramesInOrder(req, w, t) && SettlesOnce(req, w, t) && TextFaithful(req, w, t) && StoresId(req, w, t)
    ensures AnswerFits(req, w, t) && !t.unlocked
  {
    hide FramesInOrder, TextFaithful, Terminals, ChunkText, M.Pushed, Sse.FailureOf, M.Flush, M.Verdict, M.Clean, Concat,
      LimiterVerdict, DeltasOf, M.Hits, TrimSpace, ConversationOf, TokensOf, TaskOf;
    assert GoesUpstream(req, w) by { ForwardedMeans(req, w, frames); }
    AdmittedPlayer(req, w);
    var conversationId, totalTokens := ConversationOf(w.upstream), TokensOf(w.upstream);
    var settlements := [L.Success(req.playerId, totalTokens)];
    if w.accountingFails || totalTokens < 0 {
      t := Trace(frames + [Error("INTERNAL")], settlements, None, None, false);
      EndWith(req, w, frames, Error("INTERNAL"), t);
      return;
    }
    var stored := None;
    if conversationId != "" {
      if w.storeFails {
        t := Trace(frames + [Error("INTERNAL")], settlements, None, None, false);
        EndWith(req, w, frames, Error("INTERNAL"), t);
        return;
      }
      stored := Some(conversationId);
    }
    if outputBlocked {
      t := Trace(frames, settlements, stored, None, false);
      EndBlocked(req, w, t);
      return;
    }
    FlushFacts(Settings(w), DeltasOf(w.upstream));
    var o := filter.FlushRest();
    if o.blocked {
      t := Trace(frames + [Blocked(o.fallback)], settlements, stored, None, false);
      EndWith(req, w, frames, Blocked(o.fallback), t);
      return;
    }
    var frames' := if o.emit == "" then frames else frames + [Chunk(o.emit)];
    DoneReports(w.upstream);
    t := Trace(frames' + [MakeDone(conversationId, totalTokens)], settlements, stored, None, false);
    EndDone(req, w, frames, o.emit, frames', t);
  }

  /** The upstream call and what follows it. */
  method Stream(req: Request, w: World) returns (t: Trace)
    requires GoesUpstream(req, w)
    ensures FramesInOrder(req, w, t) && SettlesOnce(req, w, t) && TextFaithful(req, w, t) && StoresId(req, w, t)
    ensures AnswerFits(req, w, t) && !t.unlocked
  {
    hide Terminals, ChunkText, M.Pushed, GoesUpstream, FramesInOrder, SettlesOnce, TextFaithful, StoresId,
      ConversationOf, TokensOf, FailureOf, DeltasOf;
    var filter := new M.OutputFilter(Settings(w));
    var conversationId, totalTokens, failure, deltas, taskId := CallUpstream(w.upstream);
    var frames, outputBlocked := ForwardDeltas(filter, deltas);
    if failure.Some? {
      t := AfterFailure(req, w, frames, outputBlocked, taskId);
    } else {
      t := AfterSuccess(req, w, frames, outputBlocked, filter);
    }
  }

  /** HandleChat: whatever its collaborators do, the request obeys the frame
      protocol, settles the limiter exactly once if it was admitted, forwards a
      clean prefix of the stream, and releases the creation lock if it got it. */
  method HandleChat(req: Request, w: World) returns (t: Trace)
    ensures FramesInOrder(req, w, t)
    ensures SettlesOnce(req, w, t)
    ensures TextFaithful(req, w, t)
    ensures StoresId(req, w, t)
    ensures AnswerFits(req, w, t)
    ensures t.unlocked <==> Admitted(req, w) && w.resolution.Resolved? && w.resolution.locked
  {
    hide FramesInOrder, TextFaithful, StoresId, AnswerFits, TrimSpace, L.Allow, BookedSuccess, FailureOf, MidStreamHit, M.Hits;
    var npcId, query := TrimSpace(req.npcId), TrimSpace(req.query);
    if npcId == "" || query == "" || |query| > MAX_QUERY_RUNES {
      EarlyAnswer(req, w, Error("BAD_REQUEST"), []);
      return Answer(Error("BAD_REQUEST"), []);
    }
    if !w.ready {
      EarlyAnswer(req, w, Error("INTERNAL"), []);
      return Answer(Error("INTERNAL"), []);
    }
    var verdict := LimiterVerdict(req, w);
    if !verdict.Admitted? {
      RefusalCode(req, w);
      EarlyAnswer(req, w, Error(LimiterErrorCode(verdict)), []);
      return Answer(Error(LimiterErrorCode(verdict)), []);
    }
    AdmittedPlayer(req, w);
    var nothingUsed := [L.Success(req.playerId, 0)];
    if w.resolution.StoreFailed? {
      EarlyAnswer(req, w, Error("INTERNAL"), nothingUsed);
      return Answer(Error("INTERNAL"), nothingUsed);
    }
    var check := M.CheckInput(w.moderator, query);
    if !w.contextBuilt {
      EarlyAnswer(req, w, Error("INTERNAL"), nothingUsed);
      t := Answer(Error("INTERNAL"), nothingUsed);
    } else if !check.0 {
      EarlyAnswer(req, w, Blocked(check.1), nothingUsed);
      t := Answer(Blocked(check.1), nothingUsed);
    } else {
      t := Stream(req, w);
    }
    t := Unlock(req, w, t);
  }

  /** The deferred unlock. */
  method Unlock(req: Request, w: World, t: Trace) returns (t': Trace)
    requires w.resolution.Resolved? && !t.unlocked && AnswerFits(req, w, t)
    requires FramesInOrder(req, w, t) && SettlesOnce(req, w, t) && TextFaithful(req, w, t) && StoresId(req, w, t)
    ensures t'.unlocked == w.resolution.locked && AnswerFits(req, w, t')
    ensures FramesInOrder(req, w, t') && SettlesOnce(req, w, t') && TextFaithful(req, w, t') && StoresId(req, w, t')
  {
    hide Terminals, ChunkText, Admitted, GoesUpstream, MidStreamHit, BookedSuccess, LimiterVerdict, FailureOf,
      ConversationOf, TokensOf, TaskOf, DeltasOf, M.Verdict, M.Clean, M.Refuses, TrimSpace, Concat;
    t' := if w.resolution.locked then t.(unlocked := true) else t;
  }

  /** Whatever happens, no banned word of up to 33 runes reaches the client in the
      chunks of one request. */
  lemma ShortWordsNeverShown(req: Request, w: World, t: Trace, i: nat)
    requires TextFaithful(req, w, t) && w.moderator.PolicyModerator?
    requires i < |w.moderator.policy.banned| && |w.moderator.policy.banned[i]| <= 33
    ensures !Contains(ToLower(ChunkText(t.frames), w.moderator.policy.lower), w.moderator.policy.banned[i])
  {
    hide ChunkText, Contains, Terminals;
  }

  /** The settlement of an admitted request frees one slot of the limiter, in
      whatever state other requests and gateways have brought it. */
  lemma SettlementFreesSlot(req: Request, w: World, t: Trace, s: L.State, now: nat)
    requires Admitted(req, w) && SettlesOnce(req, w, t) && L.ValidKeys(w.limiterConfig, s, now)
    ensures var s' := L.Settle(w.limiterConfig, s, t.settlements[0], now);
            |L.Slots(s', now)| == (if L.Slots(s, now) == [] then 0 else |L.Slots(s, now)| - 1)
  {
    hide L.Settle, L.Slots, L.Allow, L.ValidKeys, TrimSpace;
    L.SettlementFreesOneSlot(w.limiterConfig, s, t.settlements[0], now);
  }

  // ---- the second answer happens ----

  /** A player's first request to a fresh limiter: its stream says a banned word in
      its first sentence, then ends with `last`. */
  function HitThen(c: L.Config, last: Sse.Event, accountingFails: bool, storeFails: bool): World {
    var policy := M.KeywordPolicy(["b"], (r: char) => r);
    World(true, c, L.START, 0, Resolved("known", false), true, M.PolicyModerator(policy, "no", "hit"),
          Streams([Sse.Message("task", "known", "m", "b."), last], Sse.EndOfStream), false, accountingFails, storeFails)
  }

  const HELLO := Request("p", "n", "q")

  lemma HelloGoesUpstream(w: World)
    requires L.ValidConfig(w.limiterConfig) && w.limiter == L.START && w.now == 0
    requires w.ready && w.resolution.Resolved? && w.contextBuilt && !M.Refuses(w.moderator, "q")
    ensures GoesUpstream(HELLO, w)
  {
    hide L.Allow, L.ValidKeys;
    var c := w.limiterConfig;
    L.StartValid(c);
    L.AllowAccounting(c, L.START, "p", 0, 0);
    assert TrimSpace("p") == "p" && TrimSpace("n") == "n" && TrimSpace("q") == "q";
  }

  lemma HitsInMidStream(c: L.Config, last: Sse.Event, accountingFails: bool, storeFails: bool)
    requires L.ValidConfig(c) && Sse.IsFinal(last)
    ensures var w := HitThen(c, last, accountingFails, storeFails);
            MidStreamHit(HELLO, w) && DeltasOf(w.upstream) == ["b."] && Sse.Length(w.upstream.events) == 1
  {
    hide L.Allow, L.ValidConfig;
    var w := HitThen(c, last, accountingFails, storeFails);
    var events := w.upstream.events;
    Sse.LengthFrom(events, 1);
    Sse.NothingRead();
    Sse.ReadOne(events, 0);
    assert [] + ["b."] == ["b."];
    NothingBanned(w);
    HelloGoesUpstream(w);
    FirstSentenceBlocked(Settings(w));
  }

  lemma NothingBanned(w: World)
    requires w.moderator.PolicyModerator? && w.moderator.policy.banned == ["b"] && w.moderator.policy.lower('q') == 'q'
    ensures !M.Refuses(w.moderator, "q")
  {
    assert "q"[0..1][0] != "b"[0];
    assert ToLower("q", w.moderator.policy.lower) == "q";
  }

  lemma FirstSentenceBlocked(c: M.Settings)
    requires c.mod.PolicyModerator? && c.mod.policy.banned == ["b"] && c.mod.policy.lower('b') == 'b'
    ensures M.Pushed(c, ["b."]).0.blocked
  {
    assert M.IsTerminator("b."[1]) && "b."[..2] == "b.";
    assert M.Segment(c, "b.", false).0 == "b.";
    assert M.Pushed(c, ["b."]).0 == M.Push(c, M.FRESH, "b.").0 by { M.TwoDeltas(c, "b.", ""); }
    assert "" + "b." == "b.";
    var lowered := ToLower("b.", c.mod.policy.lower);
    assert OccursAt(lowered, "b", 0);
    assert Contains(lowered, c.mod.policy.banned[0]);
  }

  /** A message_replace after the hit is a second ChatBlocked. */
  lemma AnsweredAgainByReplacement(c: L.Config, fallback: string)
    requires L.ValidConfig(c)
    ensures var w := HitThen(c, Sse.MessageReplace(fallback), false, false);
            && AnsweredTwice(HELLO, w)
            && forall t :: FramesInOrder(HELLO, w, t) && AnswerFits(HELLO, w, t) ==>
                             Terminals(t.frames) == [Blocked("hit"), Blocked(fallback)]
  {
    hide Terminals, M.Pushed, GoesUpstream, NoChunkAfterTerminal;
    HitsInMidStream(c, Sse.MessageReplace(fallback), false, false);
  }

  /** Failing to account for the stream or to store its id is an INTERNAL error
      after the ChatBlocked. */
  lemma AnsweredAgainByFailure(c: L.Config, tokens: int, accountingFails: bool, storeFails: bool)
    requires L.ValidConfig(c) && (accountingFails || storeFails || tokens < 0)
    ensures var w := HitThen(c, Sse.MessageEnd("known", "m", tokens), accountingFails, storeFails);
            && AnsweredTwice(HELLO, w)
            && forall t :: FramesInOrder(HELLO, w, t) && AnswerFits(HELLO, w, t) ==>
                             Terminals(t.frames) == [Blocked("hit"), Error("INTERNAL")]
  {
    hide Terminals, M.Pushed, GoesUpstream, NoChunkAfterTerminal;
    HitsInMidStream(c, Sse.MessageEnd("known", "m", tokens), accountingFails, storeFails);
  }

  // ---- resolveConversation, run alone ----

  datatype Lookup = Found(id: string) | LookupFailed  // Found("") means no mapping

  /** Either an id to use, or the lock to create one under; a lock that was taken
      is handed on or released, never lost. */
  method ResolveConversation(first: Lookup, clientId: string, lockTaken: bool, second: Lookup)
    returns (r: Resolution, released: bool)
    ensures r.Resolved? ==> (r.locked <==> r.conversationId == "")
    ensures r.Resolved? && r.locked ==> first == Found("") && second == Found("") && TrimSpace(clientId) == "" && lockTaken
    ensures first.Found? && first.id != "" ==> r == Resolved(first.id, false) && !released
    ensures first == Found("") && TrimSpace(clientId) != "" ==> r == Resolved(TrimSpace(clientId), false) && !released
    ensures first == Found("") && TrimSpace(clientId) == "" && lockTaken ==>
              (released <==> !(r.Resolved? && r.locked)) && (second.Found? && second.id != "" ==> r == Resolved(second.id, false))
    ensures r.StoreFailed? <==>
            (first.LookupFailed? || (first.id == "" && TrimSpace(clientId) == "" && (!lockTaken || second.LookupFailed?)))
  {
    released := false;
    if first.LookupFailed? { return StoreFailed, released; }
    if first.id != "" { return Resolved(first.id, false), released; }
    var trimmed := TrimSpace(clientId);
    if trimmed != "" { return Resolved(trimmed, false), released; }
    if !lockTaken { return StoreFailed, released; }
    if second.LookupFailed? { return StoreFailed, true; }
    if second.id != "" { return Resolved(second.id, false), true; }
    return Resolved("", true), released;
  }
}
