# Verified model of the game gateway

A Dafny 4.11 model of the gateway's admission, moderation, session and transport
machinery, with proofs over every input, every run and every interleaving.
`dafny verify dfyconfig.toml` checks the whole project.

Code that computes is a function; code that changes state is a class whose methods
are proved equal to those functions (`Value()` before and after); concurrency is a
system of atomic steps, and its results hold for every sequence of steps. Time is a
non-decreasing clock in whole milliseconds, shared by all gateways and Redis.

| file | what it models |
|---|---|
| `Redis.dfy` | sorted sets with key expiry, and the member names that gateways put in them |
| `Semaphore.dfy`, `Inflight.dfy` | the in-flight slots: expiries alone, and the scripts that implement them |
| `RateWindow.dfy`, `Budget.dfy`, `Circuit.dfy` | sliding window, daily token budget, circuit breaker |
| `Limiter.dfy`, `Fleet.dfy` | `Allow` and the three settlements over all of these, and whole runs of them by many gateways |
| `Text.dfy`, `Moderation.dfy` | runes, keyword policy, streaming output filter |
| `Store.dfy`, `Conversation.dfy` | the conversation lock, and double-checked creation under it |
| `Sse.dfy`, `Pipeline.dfy` | the upstream event scan and `HandleChat` |
| `Frame.dfy`, `Registry.dfy` | framing, and the in-flight requests of a connection with its teardown |
| `Retry.dfy` | upstream backoff and retry |

## Where the code and its comments differ

The model follows the code. Each of these has a lemma that shows the failure and one
that says exactly when the claim does hold.

- The acquire script's comment (`internal/limiter/limiter.go:45-48`) says a crashed
  holder's slot is reclaimed under sustained traffic. It is not, because a release drops
  the oldest lease: `Inflight.CrashedSlotCarriedForward`. While nobody settles late, every
  slot comes back when its own holder's lease ends if and only if oldest running holders
  settle first: `Semaphore.AlwaysExactIffOldest`, with `Semaphore.ExactIffAsMany`.
- A holder that settles after its own lease ended can free a running holder's slot. For
  every limit and lease this lets any multiple of the limit run at once:
  `Semaphore.LateSettleOveradmits`. Running holders keep their slots all along if and only
  if every settlement is in time, or finds a running lease to spare, or finds nobody
  running: `Semaphore.SettleCoveredIff` for a step, `Inflight.SlotsKeptIff` for runs.
- The conversation lock covers the streaming call only if the request has a deadline
  (`internal/pipeline/handler.go:318-328`); otherwise a call that outlasts the TTL forks the
  conversation: `Conversation.LateCreatorForks`. With locks of one TTL the conversation is
  created once in every interleaving if and only if critical sections are bounded by that
  TTL: `Conversation.CreatedOnceIffSectionsFitTtl`. The default TTL is 15 s
  (`internal/pipeline/handler.go:28`).
- A request can be answered by a second terminal frame after a moderation hit in
  mid-stream: `Pipeline.AnsweredAgainByReplacement`, `Pipeline.AnsweredAgainByFailure`.
  `Pipeline.HandleChat` states exactly when (`AnsweredTwice`).
- The documented backoff base*2^(n-1), capped, is what the loop returns if and only if no
  doubling reaches 2^63 before the cap: `Retry.PromisedIffCappedInTime`. Otherwise some
  attempt gets a negative delay (`Retry.OverflowShows`); a base of 2^62 already overflows
  on the second attempt.
- Across a segment boundary the output filter finds words of up to overlapRunes + 1 runes,
  one more than its comment says; longer words can be missed (`Moderation.LongWordMissed`,
  `Moderation.UnbrokenWordMissed`). A length bound on banned words makes streaming agree
  with the one-shot check if and only if it is at most overlapRunes + 1:
  `Moderation.SafeBoundIff`.

## Model

| member | source | states |
|---|---|---|
| Redis.MemberNameInjective | internal/limiter/limiter.go:167-176 | members named by gateways with distinct instance ids, or with distinct serials, are distinct |
| Redis.AddLatest | internal/limiter/limiter.go:55 | ZADD of a fresh member at the latest score adds exactly one entry, wherever the tie-break puts it |
| Redis.AddKeepsSortedSet | internal/limiter/limiter.go:55 | ZADD keeps entries in score and byte order with each member once, and replaces or adds its own member only |
| Inflight.AcquireEffect | internal/limiter/limiter.go:49-58 | the acquire script refuses exactly when the unexpired leases fill the limit, else adds one lease, and returns the live count |
| Inflight.ReleaseEffect | internal/limiter/limiter.go:63-75 | the release script drops the oldest unexpired lease and nothing else, and returns the live count |
| Inflight.PurgeSeesEveryLiveLease | internal/limiter/limiter.go:49-75 | the key-level PEXPIRE never removes a lease that the purge would keep |
| Inflight.RunRefines | internal/limiter/limiter.go:332-365 | every run of the scripts by any number of gateways is a run of the expiries-only semaphore |
| Inflight.LimitHolds | internal/limiter/limiter.go:49-58 | in every run, with crashes and late settlements, the set never exceeds maxInflight |
| Inflight.SlotsKeptIff | internal/limiter/limiter.go:60-75 | in every run of any number of gateways, with crashes, there are at all times at least as many leases as running holders, now and at every later instant, if and only if every settlement is in time, or finds a running lease to spare, or finds nobody running |
| Inflight.RunningHoldersKeepSlots | internal/limiter/limiter.go:60-75 | in such runs, in particular while nobody settles late, every running holder has a lease of its own that outlasts it, at every instant, although releases drop the oldest; so at most maxInflight run |
| Inflight.SlotsEqualHolders | internal/limiter/limiter.go:49-75 | if no outstanding holder is overdue, leases and holders are equally many, and neither the next purge nor the key expiry drops a lease |
| Inflight.DrainsAfterOneLease | internal/limiter/limiter.go:45-58 | whatever happened before, one lease period without an acquire empties the set |
| Inflight.KeyExpires | internal/limiter/limiter.go:55-57 | more than one lease after the last event the key itself has expired |
| Inflight.CrashedSlotCarriedForward | internal/limiter/limiter.go:45-48 | under steady traffic the slot of a crashed holder is still taken after any number of rounds |
| Semaphore.SettleCoveredIff | internal/limiter/limiter.go:60-75 | a settlement leaves every running holder its slot if and only if it is in time, or a running lease is to spare, or nobody runs |
| Semaphore.DominatesIffAtLeastAsMany | internal/limiter/limiter.go:49-75 | leases outlast running holders one by one if and only if at every later instant they are at least as many |
| Semaphore.ReleaseExactIffOldest | internal/limiter/limiter.go:60-68 | a timely release keeps leases equal to the running holders' leases if and only if an oldest running holder settles |
| Semaphore.ExactIffAsMany | internal/limiter/limiter.go:45-48 | leases equal the running holders' leases if and only if at every later instant there are as many leases as running holders, that is, each slot comes back when its own lease ends |
| Semaphore.AlwaysExactIffOldest | internal/limiter/limiter.go:45-68 | along a run without late settlements, leases are exact all the time if and only if every settling holder is an oldest running one |
| Semaphore.ReclaimedWhenOldestSettles | internal/limiter/limiter.go:45-48 | if oldest running holders settle first, a crashed slot is reclaimed at its own expiry under any traffic |
| Semaphore.LateSettleOveradmits | internal/limiter/limiter.go:60-75 | for every limit and lease, late settlements let (rounds + 1) times the limit run at once, for any number of rounds |
| RateWindow.AdmittedIffWindowNotFull | internal/limiter/limiter.go:34-43 | after every run, an attempt is admitted if and only if the full admission log has fewer than limit entries in (now - window, now] |
| RateWindow.NoWindowOverfull | internal/limiter/limiter.go:265-286 | for every instant t a player was admitted at most limit times in (t - window, t] |
| RateWindow.KeyExpires | internal/limiter/limiter.go:40-42 | more than one window after the last attempt the key itself has expired |
| Budget.UntilNextUtcDay | internal/limiter/limiter.go:405-413 | the TTL reaches exactly the next UTC midnight |
| Budget.DailyTotalBounded | internal/limiter/limiter.go:288-330 | in every interleaving a day's recorded tokens, and whatever its counter reads, stay within the budget plus maxUse for each request that can be in flight |
| Budget.CounterEqualsRecorded | internal/limiter/limiter.go:80-84 | while a day lasts its counter reads the sum recorded under it, since no TTL ends before the day |
| Budget.CountersExpire | internal/limiter/limiter.go:77-84 | a day after the last event every counter reads zero again: no record leaves one without an expiry |
| Circuit.NewConfig | internal/limiter/circuit.go:46-73 | zero fields get the defaults 20, 5, 0.5 and 30 s, other fields are kept, everything accepted is a valid configuration; refused exactly for a negative field, a threshold above 1, or more samples than the window after defaults |
| Circuit.CircuitBreaker.constructor | internal/limiter/circuit.go:77-78 | a new breaker is closed with no events and no probe |
| Circuit.CircuitBreaker.IsReady | internal/limiter/circuit.go:81-98 | computes Ready without changing the breaker |
| Circuit.CircuitBreaker.Admit | internal/limiter/circuit.go:100-125 | new state and answer are those of Allow, clock readings for check and probe start apart |
| Circuit.CircuitBreaker.Cancel | internal/limiter/circuit.go:127-133 | new state is that of CancelProbe |
| Circuit.CircuitBreaker.Report | internal/limiter/circuit.go:135-184 | new state is that of Record, the counting loop included |
| Circuit.CircuitBreaker.FailureRatioReached | internal/limiter/circuit.go:152-163 | computes ThresholdReached from the counting loop |
| Circuit.CountFailures | internal/limiter/circuit.go:155-160 | the loop counts the false outcomes, as the multiset of events does |
| Circuit.ReachedIffOverloaded | internal/limiter/circuit.go:145-163 | the ratio test holds exactly when the last Window outcomes are at least MinSamples and their failures at least the threshold's share |
| Circuit.EveryStateSound | internal/limiter/circuit.go:100-184 | in every reachable state events imply closed and a probe implies half-open; while closed the events are the last Window outcomes since creation or the last close, and the failures among them are fewer than the threshold's share once there are MinSamples |
| Circuit.ReportDecides | internal/limiter/circuit.go:135-169 | after every run, exactly which reports leave the breaker closed, and that one that opens it starts the clock |
| Circuit.SuccessesNeverOpen | internal/limiter/circuit.go:135-169 | a breaker that has seen no failure since it last closed is not opened by a success |
| Circuit.MinSamplesFailuresOpen | internal/limiter/circuit.go:135-169 | failures in a row open a fresh breaker with the MinSamples-th and not before, for every threshold |
| Circuit.CancelledProbeIsReplaced | internal/limiter/circuit.go:116-133 | after a cancelled probe the next request is admitted at once as the new probe |
| Circuit.ReadyPredictsAllow | internal/limiter/circuit.go:81-125 | ready answers what allow would at the same instant |
| Circuit.FrozenWhileOpen | internal/limiter/circuit.go:100-168 | while open, stragglers change nothing and nothing is admitted before OpenDuration |
| Circuit.ProbesSpaced | internal/limiter/circuit.go:116-125 | two half-open admissions with no report or cancellation between them are OpenDuration apart |
| Circuit.AlwaysRecovers | internal/limiter/circuit.go:90-125 | from every reachable state, waiting OpenDuration makes the next allow succeed |
| Limiter.RedisLimiter.constructor | internal/limiter/limiter.go:128-165 | a new limiter has empty keys and a fresh breaker |
| Limiter.RedisLimiter.AcquireSlot | internal/limiter/limiter.go:332-354 | new state and answer are those of AcquireInflight |
| Limiter.RedisLimiter.ReleaseSlot | internal/limiter/limiter.go:356-365 | new state is that of ReleaseInflight |
| Limiter.RedisLimiter.CheckRate | internal/limiter/limiter.go:265-286 | new state and answer are those of AllowRate |
| Limiter.RedisLimiter.AllowRequest | internal/limiter/limiter.go:180-221 | new state and verdict are those of Allow |
| Limiter.RedisLimiter.Record | internal/limiter/limiter.go:225-246 | new state is that of a success, which SettlementFreesOneSlot spells out; fails exactly for a blank player or negative usage |
| Limiter.RedisLimiter.RecordFailure | internal/limiter/limiter.go:250-254 | new state is that of a failure, which SettlementFreesOneSlot spells out |
| Limiter.RedisLimiter.Release | internal/limiter/limiter.go:260-263 | new state is that of a cancellation |
| Limiter.AllowAccounting | internal/limiter/limiter.go:180-221 | Allow admits exactly when every guard does and otherwise names the first that refuses; admission adds one running slot and one window entry; a refusal keeps the slot count, all windows and budgets; only a rate refusal moves slots, exchanging the oldest lease for a new one; what becomes of the breaker in every case, a probe being left exactly by an admission |
| Limiter.SettlementFreesOneSlot | internal/limiter/limiter.go:225-263 | every settlement but a blank player's Record frees one slot in whatever state it finds, keeps windows, adds tokens only for a success and only to its player's day; a probe's success closes the breaker, its failure opens it now, its cancellation leaves room for another; a closed breaker counts successes and failures and ignores cancellations; an open one ignores all |
| Limiter.AllowGains | internal/limiter/limiter.go:180-221 | the members that Allow adds to any key carry this gateway's instance id |
| Fleet.ReachableKeysValid | internal/limiter/limiter.go:180-263 | after any sequence of Allow and settlement calls by any number of gateways, the premise of the two lemmas above holds for each gateway at every later instant |
| Fleet.RunRefines | internal/limiter/limiter.go:180-263 | every such sequence is a run of the expiries-only semaphore whose holders are the admitted unsettled requests, a rate refusal being an acquire and the settlement of that same holder; running leases agree at every later instant |
| Fleet.SlotLimitHolds | internal/limiter/limiter.go:180-263 | no more than maxInflight slots run, whatever crashes, is refused or settles late |
| Fleet.RunningRequestsKeepSlots | internal/limiter/limiter.go:180-263 | while nobody settles late, each admitted request whose lease runs has a running slot at every later instant, crashes and rate refusals of others notwithstanding |
| Fleet.AdmittedIffRequestsFit | internal/limiter/limiter.go:180-221 | if no admitted request is overdue, running slots are exactly the admitted unsettled requests, and Allow on any gateway admits exactly when they are fewer than maxInflight and the other guards pass |
| Moderation.NewKeywordPolicy | internal/moderation/moderation.go:43-52 | the loop keeps the trimmed, lower-cased, nonblank words in order |
| Text.TrimSpaceCuts | internal/moderation/moderation.go:46 | trimming leaves the part between the leading and the trailing spaces |
| Moderation.PolicyHitsItsWords | internal/moderation/moderation.go:43-63 | a policy made from a word list refuses a text exactly when some nonblank entry occurs in it, surrounding blanks and case aside |
| Moderation.Allowed | internal/moderation/moderation.go:55-63 | the loop answers whether no banned word occurs in the lower-cased text |
| Moderation.LastIndex | internal/moderation/moderation.go:220-227 | the last rune of a class, with none of that class after it, or -1 |
| Moderation.SplitKeepingLastToken | internal/moderation/moderation.go:245-251 | divides the text before an unbroken last token that follows a space, and when it keeps nothing back |
| Moderation.OutputFilter.constructor | internal/moderation/moderation.go:149-155 | a new filter is empty and unblocked |
| Moderation.OutputFilter.PushDelta | internal/moderation/moderation.go:161-167 | new state and outcome are those of Push, which UnfinishedHeldBack to PushBlocksIff below describe |
| Moderation.OutputFilter.FlushRest | internal/moderation/moderation.go:171-176 | new state and outcome are those of Flush |
| Moderation.OutputFilter.DrainBuffer | internal/moderation/moderation.go:181-216 | new state and outcome are those of Drain |
| Moderation.UnfinishedHeldBack | internal/moderation/moderation.go:197-198 | text without a terminator and below the cap is buffered whole and nothing is emitted |
| Moderation.FinishedEmitted | internal/moderation/moderation.go:191-192 | with a terminator the emission is the longest text that ends in one and the rest is kept |
| Moderation.CapKeepsLastToken | internal/moderation/moderation.go:193-196 | at the cap all but an unfinished last token is emitted, and everything only if nothing can be cut |
| Moderation.PushBlocksIff | internal/moderation/moderation.go:201-216 | a push blocks exactly when the overlap and what it would emit contain a banned word; then it emits nothing and gives the output fallback; otherwise moderation makes no difference |
| Moderation.FlushBlocksIff | internal/moderation/moderation.go:171-176 | flush decides on all that is left in the same way and emits all of it |
| Moderation.BlockedForGood | internal/moderation/moderation.go:161-176 | after a hit every push and flush answers blocked with nothing |
| Moderation.ShowsWholeSentences | internal/moderation/moderation.go:130-138 | for every split, while no sentence reaches the cap, what was emitted is exactly the finished sentences and what is buffered is the unfinished one |
| Moderation.NoStraddle | internal/moderation/moderation.go:201-212 | a word of at most overlapRunes + 1 runes that is in neither the emitted text nor overlap + segment is not in both together |
| Moderation.NoFalseBlock | internal/moderation/moderation.go:161-216 | for every split and word length, blocked only if the whole text contains a banned word; otherwise all of it was emitted |
| Moderation.StreamedEqualsOneShot | internal/moderation/moderation.go:161-216 | with words of at most overlapRunes + 1 runes, Push* then Flush ends blocked if and only if the whole lower-cased text contains a banned word |
| Moderation.SplitDoesNotMatter | internal/moderation/moderation.go:130-138 | two splits of one text get the same verdict |
| Moderation.EmittedIsClean | internal/moderation/moderation.go:134-138 | nothing emitted at any point contains a short banned word |
| Moderation.LongWordMissed | internal/moderation/moderation.go:123-128 | every longer word with a terminator before its last rune is missed under some split |
| Moderation.UnbrokenWordMissed | internal/moderation/moderation.go:193-196 | every longer word that is one unbroken run up to its last rune is missed through the size cap, behind a run of a rune foreign to it |
| Moderation.SafeBoundIff | internal/moderation/moderation.go:123-128 | for every cap and overlap, a bound on word lengths makes streaming agree with the one-shot check for all policies within it and all splits if and only if it is at most overlapRunes + 1 |
| Moderation.BufferBounded | internal/moderation/moderation.go:187-215 | with deltas of at most M bytes, the held-back text has no terminator and at most max(maxSegmentBytes, M) + M bytes |
| Store.ConversationLock.TryAcquire | internal/store/store.go:101-108 | one round of the acquire loop is SET NX with TTL |
| Store.ConversationLock.Unlock | internal/store/store.go:120-131 | the first unlock runs the token-guarded delete, later ones do nothing |
| Store.AtMostOneHolder | internal/store/store.go:94-118 | in every interleaving of attempts, expiry and unlocks at most one caller holds the lock unexpired, and the key carries its token |
| Store.AcquiredIffNobodyHolds | internal/store/store.go:101-108 | after every run an attempt takes the lock until its TTL ends if and only if nobody holds it unexpired |
| Store.UnlockReleasesOnlyOwn | internal/store/store.go:27-35 | an unlock, late or repeated, deletes the key exactly when its caller still holds it |
| Conversation.LockTtl | internal/pipeline/handler.go:318-328 | the TTL is the larger of the configured one and the time to the request's deadline plus a second |
| Conversation.ConversationCreatedOnce | internal/pipeline/handler.go:301-343 | in every timely interleaving at most one request goes upstream with an empty id and stores the answer, everyone who goes upstream later carries that id |
| Conversation.StoredForGood | internal/pipeline/handler.go:253-259 | no later event changes the stored id |
| Conversation.ReadsDecide | internal/pipeline/handler.go:301-343 | once an id is stored every first read uses it without the lock and a lock holder gives up for it; before, readers contend and the holder creates; a failed store stores nothing |
| Conversation.LockNeverLeaks | internal/pipeline/handler.go:329-343 | in every possible interleaving a request that tries for the lock gets it unless some request that has yet to unlock holds it within its TTL |
| Conversation.UnlockGivesBack | internal/pipeline/handler.go:146-149 | a request that unlocks no longer has the key and takes nobody else's |
| Conversation.DeadlinesMakeTimely | internal/pipeline/handler.go:318-328 | if every request has a deadline and leaves its critical section within a second of it, the TTL computed from it always suffices and the conversation is created once |
| Conversation.LateCreatorForks | internal/pipeline/handler.go:318-328 | for every TTL, a creator that outlasts it lets two requests create and store |
| Conversation.CreatedOnceIffSectionsFitTtl | internal/pipeline/handler.go:318-343 | for every TTL and bound on the critical section, all interleavings within the bound create the conversation at most once if and only if the bound is at most the TTL |
| Sse.ParseSSE | internal/dify/sse.go:76-139 | onDelta sees exactly the nonempty answers before the first event that ends the stream; the result has that stream's conversation, message id, tokens and error; onEvent gets the first message's task |
| Sse.HowItEnds | internal/dify/sse.go:97-138 | success and tokens exactly from the message_end that ends the stream; else no tokens, and the error names the replacement, the upstream error, the undecodable event, the read error or the missing end |
| Sse.WhoseIds | internal/dify/sse.go:102-122 | conversation and message id are those of message_end where given, else the first nonempty ones before it |
| Sse.DeltasAreAnswers | internal/dify/sse.go:113-115 | one nonempty delta for each message with an answer, together the answers before the end |
| Sse.FirstTaskMeans | internal/dify/sse.go:109-112 | onEvent is called exactly if there is a message, with the first one's task |
| Pipeline.ForwardDeltas | internal/pipeline/handler.go:184-203 | the forwarded chunks are what the filter emitted, and a hit sends one ChatBlocked and ends them |
| Pipeline.WellFormedMeans | internal/pipeline/handler.go:112-129 | a request is served only if npc and query are not all spaces and the trimmed query has at most 4096 runes |
| Pipeline.AfterFailure | internal/pipeline/handler.go:212-243 | every way a failed upstream call ends obeys the clauses of HandleChat; a cancelled one stores the id that upstream named |
| Pipeline.AfterSuccess | internal/pipeline/handler.go:245-273 | every way a completed upstream call ends obeys the clauses of HandleChat: ChatDone exactly for a clean booked success, ChatBlocked for a hit on flush, INTERNAL when accounting or storing fails |
| Pipeline.HandleChat | internal/pipeline/handler.go:109-273 | one terminal frame, or two exactly when AnsweredTwice; no chunk after a terminal; without a mid-stream hit the terminal is last; after one the first is that ChatBlocked and no ChatDone follows; the last terminal is fixed for every way to end, error codes included; a ChatDone has the stream's conversation and its tokens in 32 bits, 0 for a negative count; one not settled as cancelled comes from a clean booked success and then the chunks are the whole stream, otherwise a clean prefix; one settlement if admitted, else none; the id is stored exactly by a booked success or a cancelled request; the lock is released if taken |
| Pipeline.CallUpstream | internal/pipeline/handler.go:205-210 | an upstream call that was refused gives only its error, any other the results of the scan |
| Pipeline.ErrorCodeFits | internal/pipeline/handler.go:436-465 | exactly which failures are reported as UPSTREAM_TIMEOUT, RATE_LIMITED and UPSTREAM_ERROR |
| Pipeline.DoneReports | internal/pipeline/handler.go:495-502 | ChatDone carries the conversation and the token count in 32 bits, 0 for a negative one |
| Pipeline.ShortWordsNeverShown | internal/pipeline/handler.go:184-203 | no banned word of up to 33 runes is in the chunks of a request |
| Pipeline.AnsweredAgainByReplacement | internal/pipeline/handler.go:212-219 | a first request whose stream is replaced after a hit gets two ChatBlocked, under every limiter configuration |
| Pipeline.AnsweredAgainByFailure | internal/pipeline/handler.go:245-258 | one whose accounting or storing fails after a hit gets ChatBlocked and then INTERNAL |
| Pipeline.AdmittedPlayer | internal/limiter/limiter.go:225-229 | Record's blank-player return is out of reach after a successful Allow |
| Pipeline.SettlementFreesSlot | internal/pipeline/handler.go:345-367 | the one settlement of an admitted request frees one slot, whatever other requests did to the limiter meanwhile |
| Pipeline.ResolveConversation | internal/pipeline/handler.go:301-343 | an id to use or the lock to create one under, never both; a lock that was taken is handed on or released |
| Frame.PrefixRoundTrip | internal/codec/frame.go:32 | the big-endian prefix reads back as the length |
| Frame.FromBigEndian | internal/codec/frame.go:51 | the first byte of the prefix is the most significant |
| Frame.WriteFrame | internal/codec/frame.go:26-39 | the buffer written is prefix and payload, and nothing for an oversized payload |
| Frame.Reader.Next | internal/codec/frame.go:45-67 | the two-stage read answers as ReadFrame and consumes exactly one frame; an oversized header is refused before its body |
| Frame.ConnWriter.Send | internal/mux/mux.go:31-35 | one send appends one whole frame, or nothing if refused |
| Frame.TruncatedStream | internal/codec/frame.go:41-67 | on every prefix of the bytes sent, reading gives the whole frames, then io.EOF exactly on a frame boundary, else io.ErrUnexpectedEOF |
| Frame.OversizedRefused | internal/codec/frame.go:51-54 | after any whole frames a header above the limit is refused with its size, whatever follows |
| Frame.CompleteIsBoundary | internal/codec/frame.go:45-67 | the number of whole frames in a prefix is the one whose boundaries enclose the cut |
| Frame.SendsReadBack | internal/mux/mux.go:29-35 | for every order of sends the peer reads exactly the accepted payloads in that order, then io.EOF |
| Registry.RequestRegistry.BeginRequest | internal/mux/mux.go:54-79 | registers a new request, or refuses an id in flight and changes nothing |
| Registry.RequestRegistry.StopRequest | internal/mux/mux.go:83-91 | cancels exactly the request found under that id, or nothing |
| Registry.RequestRegistry.Delete | internal/mux/mux.go:69-74 | the locked step of done |
| Registry.RequestRegistry.CancelEvery | internal/mux/mux.go:94-104 | the snapshot loop cancels every registered request and no other |
| Registry.EntriesAndWaitCount | internal/mux/mux.go:54-109 | in every interleaving entries and registered requests match one to one and the wait count is the number of unfinished requests |
| Registry.StopCancelsItsRequest | internal/mux/mux.go:83-91 | in every interleaving a stop cancels the one request registered under its id and changes nothing else |
| Registry.CancelAllReachesEveryEntry | internal/mux/mux.go:94-104 | CancelAll by itself cancels every registered request and nothing else |
| Registry.CancelledIff | internal/mux/mux.go:54-104 | in every interleaving a request is cancelled if and only if its done was called, a stop reached it, or the connection is torn down |
| Registry.DoneRemovesOnlyOwn | internal/mux/mux.go:65-77 | no late or repeated done removes another request's entry, even one reusing the id; the delete removes its own |
| Registry.NothingLeftAfterTeardown | internal/listener/listener.go:115-122 | after CancelAll and Wait every request that began is cancelled and finished and the registry is empty |
| Retry.RetryBackoff | internal/dify/client.go:60-75 | the doubling loop, in 64-bit arithmetic, computes Backoff |
| Retry.PromisedIffCappedInTime | internal/dify/client.go:19-21 | the loop gives min(base*2^(n-1), max) for every attempt if and only if no doubling overflows before the cap |
| Retry.BelowLimitIsCapped | internal/dify/client.go:60-75 | with a cap of at most 2^62 that is so exactly for a base below 2^62 |
| Retry.BackoffMonotone | internal/dify/client.go:60-75 | later attempts never wait less, and never more than the cap |
| Retry.DoRequestWithRetry | internal/dify/client.go:164-186 | at most three calls, none after a success, an error other than status 429 or 500 and above, or an interrupted wait; each wait is the larger of backoff and Retry-After |

## Left out

- Limiter.AllowAccounting: one Allow reads the clock once and every Redis step succeeds; a script error, which may or may not have taken effect, is not modelled.
- Budget.DailyTotalBounded: a check's clock reading and its GET are one step.
- Inflight.RunRefines: reading the clock and running the script are one step (internal/limiter/limiter.go:333-346), so scripts run in the order of their timestamps.
- RateWindow.AdmittedIffWindowNotFull: reading the clock and running the script are one step (internal/limiter/limiter.go:266-279).
- Conversation.DeadlinesMakeTimely: needs a caller that sets a deadline; the request contexts of this code carry none (internal/listener/listener.go:174, internal/mux/mux.go:61).
- Conversation.ConversationCreatedOnce: client conversation ids are blank, the mapping is neither reset nor expires, upstream echoes an id it was given, and lock tokens are distinct.
- Sse.ParseSSE: starts from decoded events; line splitting and JSON are left out, and callbacks are collected in call order instead of being called.
- Pipeline.HandleChat: the collaborators' outcomes are parameters; sending always succeeds, message texts of error frames and telemetry are left out.
- Store.ConversationLock.TryAcquire: the acquire loop's retry delay and cancellation appear as the order of events in a run.
- Registry.RequestRegistry.StopRequest: looking up and cancelling are one step.
- Moderation.BufferBounded: deltas are whole runes; invalid UTF-8 is not modelled.
- Circuit.CircuitBreaker.Report: the failure ratio is an exact quotient, not a float64.
- Limiter.RedisLimiter.constructor: takes a configuration that New accepts; parsing rate strings is left out.
- Collisions of random instance ids and lock tokens, clock skew between gateways, integer overflow of serials and counters, Redis failures and Go panics.
- JWT authentication, sessions, protobuf envelopes, HTTP requests, context assembly, app routing, telemetry, configuration and process assembly.
- The read loop's idle timeout and the dispatch of pings, authentication and resets: no state beyond what the registry model has.
