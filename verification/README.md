# Host-agent sessions: a verified model

This project models the path a host-agent query takes through the repository, and proves what each
stage promises:

- the **session guard** (`GuardState`, `GuardMachine`, `GuardThreads`, `GuardRecords`, `GuardCounts`,
  `GuardOwners`, `GuardHistory`, `GuardRuns`, `GuardOffers`, `GuardGuarantees`, `GuardLiveness`,
  `GuardAnswers`, `GuardOutcomes`, `SessionGuard`).
  `GuardState` gives each lock-protected body as a function on values; `GuardMachine` interleaves them,
  one step per locked section, for any number of calling threads, with `cancel`, `release`, `close` and
  `terminal_for` at any moment; one inductive invariant holds in every reachable state. Sizing a terminal
  may raise, as it can in the code. `GuardOffers` ties what a run's actions are to what its history
  records, so that the conditions of the main results can be read off the run; `GuardAnswers` and
  `GuardOutcomes` say what each call gets, from the stream, the record and the history. `SessionGuard`
  is the object itself, with a mutable dictionary of mutable records, each method proved equal to the
  function the interleaving proofs use;
- the **event-stream check** of `invoke` (`NeutralContract`, `EventLoop`, `EventVerdicts`) and the **HTTP/SSE
  driver** that feeds it (`HttpSseDriver`, `DriverEvents`), composed in `DriverGuard`, and with the
  interleavings in `DriverRuns`;
- **SSE framing** on both ends (`SseText`, `BackendSse`, `BackendParts`, `BrowserSse`, `BrowserFrames`,
  `SseRoundTrip`);
- the **relay** with its native-evidence check (`QueryContract`, `NativeEvidence`, `NativeReads`, `Relay`,
  `RelayAnswers`), the **browser's event schema** (`BrowserSchema`, `Delivery`), compact **JSON text**
  (`JsonText`), and the whole way from upstream bytes to the browser (`EndToEnd`);
- the **`useHostAgentStream` hook** (`HookState`, `HookRuns`, `HookGuarantees`, `HookRequests`,
  `HostAgentHook`): each synchronous stretch between two awaits is one step, and every interleaving of
  starts, events, ends, timeouts, cancels and resets is a run. `QueryToHook` follows an answer from the
  upstream events to the turn the user sees;
- the **schema linter** with its closing pass (`SchemaShape`, `SchemaFaults`, `SchemaLint`, `SchemaOrder`,
  `SchemaClose`) and the **projection path checks** (`ProjectionPaths`).

`Wrappers` and `JsonValues` hold the shared value types: a JSON object is the list of its entries in
insertion order, with the lookups and updates of a Python dictionary, and a float is known by its
decimal text.

What a stage computes is told twice: by the specification function that its loop or method is proved
equal to, and, apart from that function, by its inputs and outputs alone (`EventVerdicts`, `GuardAnswers`,
`GuardOutcomes`, `DriverEvents`, `BackendParts`, `BrowserFrames`, `NativeReads`, `RelayAnswers`).

`dafny verify dfyconfig.toml` checks the project.

## Results worth knowing

Where the code does less than its comments or its callers suggest, the model keeps the code's behaviour
and a lemma says exactly when the promise holds.

- **A guard can lose an owner.** A binding error is turned into an `ErrorEvent` that carries the
  binding's code (`host_agent_bridge/session_guard.py:234-235`). With the code `CANCELLED` no valid
  event exists (`host_agent_bridge/neutral_contract.py:325-334`), so the conversion itself raises and
  the record stays in flight with no owner; an exception outside `Exception` does the same. A second
  caller of the same request then sleeps until a cancel of the id or a close of the guard.
- **A terminal that cannot be sized breaks at-most-once dispatch.** `_complete` clears `in_flight`
  before it bounds the terminal (`host_agent_bridge/session_guard.py:395-397`), and sizing can raise
  (`host_agent_bridge/session_guard.py:439-447`): a `FinalEvent` may hold a lone surrogate or an integer
  beyond CPython's text limit (`host_agent_bridge/neutral_contract.py:50-68`). The live record is then
  idle, unanswered and asleep: its waiters sleep on, and the next call of the same content takes it over
  and dispatches again. `GuardGuarantees.Redispatched` gives the run; at most one dispatch between
  releases holds for an id if and only if every valid terminal of the id can be sized
  (`GuardGuarantees.AtMostOnceIffSizable`).
- **When a waiter is stranded, exactly.** `GuardGuarantees.SleepingWaiters` says who must wake a
  sleeper, in terms of the run's actions; the second caller of a dispatched request is stranded if and
  only if the first caller's stream is one of the two above (`GuardGuarantees.SecondCallerStrandedIff`).
  The HTTP/SSE driver never loses an owner: with it only a terminal that cannot be sized, or an interrupt
  before dispatch, strands a waiter (`DriverRuns.DriverSleepers`).
- **The relay passes on what the browser refuses.** The browser's event schema is a closed union
  (`src/lib/schemas.ts:514-521`) and its reader throws at the first event outside it; the relay passes
  any kind. An upstream `ping` hides the final answer behind it (`EndToEnd.UnknownKindHidesTheFinal`), and
  a `final` that the backend holds valid is itself refused if an insight says `null` for its quote
  (`EndToEnd.NullQuoteHidesTheFinal`). `EndToEnd.WholeStreamReadIff` gives the exact condition on the
  upstream, and `QueryToHook.TurnIsCompleteIff` what it means for the user: the turn is complete exactly
  then, and failed otherwise.
- **The browser splits a CR LF cut between two chunks into two line ends**
  (`src/lib/api-client.ts:137-146`): `BrowserSse.ChunkInvariantIffCutsSafely`. The repository's own
  backend writes LF only, so its frames always arrive whole: `SseRoundTrip.BrowserRoundTrip`.
- **The backend's own parser breaks lines where `splitlines` does**, at U+2028 among others, which JSON
  text may hold raw (`backend/routers/host_agent.py:421`): `SseRoundTrip.BackendReadsItsFrameIff`.
- **The journal segment pattern lets a newline through before a slash**
  (`backend/routers/host_agent.py:40`); the link pattern excludes it: `NativeEvidence.JournalIdIff`.
- **The fallback behind a relabelled native answer is dead code**
  (`backend/routers/host_agent.py:563-571`): `Relay.NativeAnswerSurvives`. So is the hook's `cancelled`
  branch in its catch block (`src/hooks/useHostAgent.ts:301-302`): `HookGuarantees.CatchNeverCancels`.
- **The schema linter's verdict depends on the order of the definitions.** A definition's depth is that
  of its first entry. Eleven definitions that each refer to the next are refused when listed first to
  last and accepted when listed last to first: `SchemaOrder.OrderDecides`.
- **A trace file under the evidence directory can land in a configured directory**, because the evidence
  directory is not among the five compared paths: `ProjectionPaths.EvidenceTraceSharedIff`.

## Model

| member | source | states |
|---|---|---|
| GuardGuarantees.AtMostOneDispatch | host_agent_bridge/session_guard.py:158-210 | in every reachable history, two binding calls of one id have between them a freeing of the id or the orphaning of its record by a terminal that could not be sized; after a cancel that created the record a binding call comes only after a freeing |
| GuardGuarantees.SizableRunsDispatchOnce | host_agent_bridge/session_guard.py:384-402 | a run that offers the id only terminals that can be sized calls its binding at most once between freeings |
| GuardGuarantees.AtMostOnceIffSizable | host_agent_bridge/session_guard.py:439-447 | at most one binding call between freeings for an id, over all runs, if and only if every valid terminal of the id can be sized |
| GuardGuarantees.Redispatched | host_agent_bridge/session_guard.py:335-337 | the failing run: a terminal that cannot be sized, and the same record dispatched again |
| GuardGuarantees.Agreement | host_agent_bridge/session_guard.py:264-287 | all answers given for an id by owners, waiters, retries, cancels and terminal lookups, with no freeing between them, carry one terminal; those of `invoke` callers carry one digest |
| GuardGuarantees.ReturnsAreRecorded | host_agent_bridge/session_guard.py:347-402 | whatever a call returns ends in the terminal that its step recorded for its id and digest |
| GuardGuarantees.WriteOnce | host_agent_bridge/session_guard.py:384-402 | over any run a record keeps its terminal, its bound digest and its wake flag once they are set |
| GuardGuarantees.WaiterCountsAreExact | host_agent_bridge/session_guard.py:347-364 | every record ever created counts exactly the calls registered on it |
| GuardGuarantees.DefensiveBranches | host_agent_bridge/session_guard.py:332-337 | the underflow error is unreachable, and the branch that takes over a live idle record is entered only for an orphaned one |
| GuardGuarantees.TakeOverIffUnsizable | host_agent_bridge/session_guard.py:335-337 | that branch can be reached for an id if and only if some valid terminal of the id cannot be sized |
| GuardGuarantees.ReleaseIsSafe | host_agent_bridge/session_guard.py:289-301 | a successful release never removes a record that a call owns or waits on |
| GuardGuarantees.RetentionIsBounded | host_agent_bridge/session_guard.py:404-413 | the dictionary never exceeds its capacity, every stored terminal fits the byte limit, and bounding a terminal of a retained id raises if and only if that terminal cannot be sized |
| GuardGuarantees.SleepingWaiters | host_agent_bridge/session_guard.py:347-402 | a waiter whose flag is clear waits on the live, unanswered record of its id in an open guard; at most one call owns it; in flight it is owned if and only if the run's actions lost no owner of the id, and out of flight nobody owns it and the run offered the id a terminal that cannot be sized |
| GuardGuarantees.NoWaiterIsStranded | host_agent_bridge/session_guard.py:347-402 | in a run without lost owners and without such offers exactly one live call must wake a sleeper |
| GuardGuarantees.SecondCallerStrandedIff | host_agent_bridge/session_guard.py:234-244 | after the first of two callers dispatched, the second ends asleep with no call able to step if and only if the binding's stream cannot be reported as an event or leads to a terminal that cannot be sized |
| GuardOffers.LossesAreActions | host_agent_bridge/session_guard.py:174-244 | a run's history records a lost owner of an id if and only if the run holds an interrupt of one of its calls before dispatch, or a stream without violations that ends in an exception outside `Exception` or a kernel error whose code makes no valid event |
| GuardOffers.OrphansAreOffered | host_agent_bridge/session_guard.py:384-402 | a record is orphaned only in a run that offers its id a terminal that cannot be sized |
| GuardLiveness.StepLowersMeasure | host_agent_bridge/session_guard.py:158-203 | each step of a call lowers one measure, a failed generation included, and cancel, release, close and lookup never raise it |
| GuardLiveness.RunsAreBounded | host_agent_bridge/session_guard.py:158-203 | without new calls a run has at most as many call steps as the measure it started with |
| GuardLiveness.MeasureIsQuadratic | host_agent_bridge/session_guard.py:158-203 | that bound is quadratic in the number of calls |
| GuardLiveness.SomebodyMoves | host_agent_bridge/session_guard.py:347-382 | while a call is unfinished some call can step, unless the call sleeps on a record that nobody owns |
| GuardLiveness.QuiescentMeansFinished | host_agent_bridge/session_guard.py:347-382 | a run that can go no further has answered or refused every call, except sleepers of an id whose owner the run lost or to which it offered a terminal that cannot be sized |
| GuardAnswers.CallReturnsItsStream | host_agent_bridge/session_guard.py:205-244 | from the stream its binding yields to its commit, whatever happens in between: in an open guard with its record still unanswered a call whose stream finishes, is well formed and ends in a terminal within the limit returns exactly the events of the stream, one for one; a terminal that is too large is replaced by the oversize error, which is then all it returns; a record answered meanwhile makes it return exactly that terminal; a rejected stream makes it return exactly the one error, bounded in the same way; a terminal that cannot be sized, or a closed guard, makes it raise |
| GuardAnswers.ReturnsTheTerminal | host_agent_bridge/session_guard.py:347-402 | whatever returns ends in the terminal that the record of its id holds, and every return but that of a commit is this one event alone |
| GuardAnswers.BoundedSays | host_agent_bridge/session_guard.py:404-428 | a terminal within the limit is kept as it is, a larger one replaced by an error event with each field of the sanitized replacement, and one that cannot be sized raises |
| GuardOutcomes.LookupIff | host_agent_bridge/session_guard.py:282-287 | a lookup finds a terminal if and only if the guard is open and the history holds an answer of that id with that terminal and no freeing of the id after it |
| GuardOutcomes.ReleaseFrees | host_agent_bridge/session_guard.py:289-301 | a release of a retained id whose record is not in flight and that no call waits on succeeds, frees exactly that id and leaves a lookup nothing to find; every other release changes nothing and reports an empty id, an absent record or a request in flight |
| GuardOutcomes.ReserveDecides | host_agent_bridge/session_guard.py:315-345 | a reserving call in an open guard is refused for an id retained with other content; returns at once, and then the terminal that was handed out and not freed since, exactly when there is one; waits while the record is in flight; and else prepares its own binding call, on a new record only if there is room and the sanitized replacement would fit; no lookup changes |
| GuardOutcomes.WaiterGets | host_agent_bridge/session_guard.py:347-364 | a woken call, whatever happens between its read and its leaving, is refused if the guard was closed, else returns its record's terminal, else reserves again; the count falls by one |
| GuardOutcomes.PreparationFails | host_agent_bridge/session_guard.py:366-382 | a call whose preparation failed raises its own error and frees its id, unless the guard closed or a terminal won, which it then returns |
| GuardOutcomes.CancelSettles | host_agent_bridge/session_guard.py:246-280 | a cancel returns the terminal handed out and not freed since, or else settles the id with a cancellation event that has each field as the source sets it, kept or replaced by size, which a lookup then finds; it is refused for an empty id, a closed guard, for want of room or of a size; no other id changes |
| GuardRuns.StepKeepsInv | host_agent_bridge/session_guard.py:246-402 | the invariant on threads, records, owners, counts and history survives every step |
| GuardRuns.StepKeepsSound | host_agent_bridge/session_guard.py:246-402 | every step keeps all pairs of history entries compatible |
| GuardRuns.ReachableInv | host_agent_bridge/session_guard.py:99-108 | the invariant holds in every state reachable from a fresh guard |
| GuardCounts.CountsKept | host_agent_bridge/session_guard.py:332-364 | each step changes a record's waiter count exactly as it changes the set of calls on it |
| GuardOwners.OwnersKept | host_agent_bridge/session_guard.py:335-400 | each step keeps one owner, or one recorded loss, for every record in flight, and for a live unanswered record out of flight a recorded orphaning |
| GuardThreads.ThreadsKept | host_agent_bridge/session_guard.py:158-244 | each step keeps what every thread's program point says about its record |
| GuardRecords.RecordsKept | host_agent_bridge/session_guard.py:246-402 | each step keeps the bounds, the names and the wake flags of all records |
| GuardHistory.HistoryKept | host_agent_bridge/session_guard.py:246-402 | each step keeps the history in agreement with the dictionary |
| SessionGuard.NeutralSessionGuard.constructor | host_agent_bridge/session_guard.py:99-108 | a new guard is open and retains nothing |
| SessionGuard.NeutralSessionGuard.Reserve | host_agent_bridge/session_guard.py:315-345 | the body changes dictionary and records, and replies, exactly as the reserve step of the interleaving model |
| SessionGuard.NeutralSessionGuard.ReserveExisting | host_agent_bridge/session_guard.py:322-337 | the same for an id already in the dictionary |
| SessionGuard.NeutralSessionGuard.ReadRecord | host_agent_bridge/session_guard.py:352-359 | a woken waiter reads its own record's terminal, a retry, or the closed guard |
| SessionGuard.NeutralSessionGuard.Unregister | host_agent_bridge/session_guard.py:360-364 | leaving lowers the count of exactly this record, or reports the underflow |
| SessionGuard.NeutralSessionGuard.ReleasePreDispatch | host_agent_bridge/session_guard.py:366-382 | a failed generation is removed and its waiters woken, unless a terminal won or the record is no longer the live one |
| SessionGuard.NeutralSessionGuard.Complete | host_agent_bridge/session_guard.py:384-402 | the first terminal is stored bounded, a later one is returned instead, and the raw events only when their own terminal won |
| SessionGuard.NeutralSessionGuard.Cancel | host_agent_bridge/session_guard.py:246-280 | a cancel stores its event or returns the terminal already there, creating the record if there is none |
| SessionGuard.NeutralSessionGuard.TerminalFor | host_agent_bridge/session_guard.py:282-287 | the lookup returns the stored terminal of an open guard and changes nothing |
| SessionGuard.NeutralSessionGuard.Release | host_agent_bridge/session_guard.py:289-301 | only an idle record without waiters is forgotten |
| SessionGuard.NeutralSessionGuard.Close | host_agent_bridge/session_guard.py:303-313 | closing empties the dictionary, sets the flag of every record that was in it and touches no other record |
| EventLoop.CheckEvents | host_agent_bridge/session_guard.py:205-244 | the loop computes the verdict given by the first violation in stream order, and by the ending when there is none |
| EventLoop.OffersExactlyTheGrammar | host_agent_bridge/session_guard.py:211-242 | the raw list is offered unchanged if and only if the stream finished and is well formed: valid events of this id, strictly increasing sequences, one terminal, last |
| EventLoop.RejectsWithTheFirstViolation | host_agent_bridge/session_guard.py:212-235 | otherwise the sole candidate is one error with the code of the first violation, whatever is raised later |
| EventLoop.CleanStreamJudgedByItsEnding | host_agent_bridge/session_guard.py:234-242 | a stream without violations is judged by how it ended |
| EventLoop.CandidateIsAValidTerminal | host_agent_bridge/session_guard.py:234-244 | every candidate is a valid terminal of this request and ends the offered list |
| EventLoop.NoVerdictIff | host_agent_bridge/session_guard.py:234-237 | the loop is left by an exception if and only if the stream has no violation and ends in one outside `Exception` or in a kernel error whose code makes no valid event |
| EventVerdicts.FaultIsReported | host_agent_bridge/session_guard.py:211-235 | if an item is the first to break a rule (not a valid event; of another request; after a terminal and itself one or not; numbered no higher than some item before it), the verdict is one error event with the code of that rule, sequence 0, the binding layer, the protocol-violation text, the request's provenance, not retryable, failed and of unknown outcome |
| EventVerdicts.EndingIsReported | host_agent_bridge/session_guard.py:234-244 | a stream that breaks no rule is offered event for event if it finished with a terminal, and is else reported by the same fields with a missing terminal, the kernel error's own code or a binding failure, each with its text; or not at all |
| EventVerdicts.SomeFirstFault | host_agent_bridge/session_guard.py:211-233 | every stream breaks no rule or has one first item that breaks one |
| HttpSseDriver.InvokeQuery | host_agent_bridge/http_sse_driver.py:144-168 | the loop yields the mapped frames in order, or raises for the whole list on a limit, on any frame without a JSON size or on any frame that raises |
| DriverEvents.StatusFrameIff | host_agent_bridge/http_sse_driver.py:205-217 | a status frame maps to the event with a given phase and message if and only if these are the nonempty texts under the keys `phase` and `message`, and id and number are the frame's own or else the request's and the index |
| DriverEvents.EvidenceFrameIff | host_agent_bridge/http_sse_driver.py:218-235 | an evidence frame maps to an event with a given object if and only if that is the object under `evidence`, or without one the data but for the three frame keys; its provenance is the data's if that is a short safe reference, else the request's, else a fixed one |
| DriverEvents.FinalFrameIff | host_agent_bridge/http_sse_driver.py:236-248 | a final frame maps to an event with a given envelope if and only if that is the data itself, a valid query response that names the id; provenance by the same rule |
| DriverEvents.ErrorFrameGives | host_agent_bridge/http_sse_driver.py:287-326 | an error frame maps to one event, unless code, reason or outcome is a list or an object: a known code or the fixed one, the outcome said or unknown, flags only if they are true in the data, presentation by the code, and a detail with exactly these and a known reason |
| DriverEvents.ProvenanceRule | host_agent_bridge/http_sse_driver.py:76-83 | the provenance of evidence and final events is the one this rule gives |
| DriverEvents.OtherFrames | host_agent_bridge/http_sse_driver.py:200-204 | a delta with a text within the limit gives no event and any other raises; an unknown kind gives one malformed item |
| DriverEvents.WithinLimitsIff | host_agent_bridge/http_sse_driver.py:144-168 | the limits hold if and only if there are at most 512 frames, each a pair whose JSON takes at most 256 KiB, and at most 4 MiB together |
| DriverGuard.OffersExactlyOneAnswer | host_agent_bridge/http_sse_driver.py:144-258 | unnumbered frames that map are offered if and only if one final or error frame exists, only deltas follow it, all other frames are known and name this request; the events are then the frames that are no deltas, one each, in order |
| DriverGuard.RejectsTheFirstWrongFrame | host_agent_bridge/http_sse_driver.py:170-258 | otherwise the error is coded by the first wrong frame, a delta is never wrong, and the code is never a sequence error |
| DriverGuard.UnansweredFrames | host_agent_bridge/session_guard.py:239-240 | right frames without an answer are reported as a missing terminal |
| DriverGuard.OneBadFrameFailsTheCall | host_agent_bridge/http_sse_driver.py:152-168 | the caller sees a plain binding failure if and only if a limit is exceeded, or some frame cannot be sized or raises |
| DriverGuard.CleanIffOneAnswer | host_agent_bridge/session_guard.py:216-233 | judging frame by frame accepts exactly the wire grammar |
| DriverGuard.ErrorTextIsFixed | host_agent_bridge/http_sse_driver.py:287-339 | an error frame becomes a valid error event whose code and detail come from a fixed vocabulary, whatever the wire said |
| DriverRuns.OnlyInterruptsLoseOwners | host_agent_bridge/session_guard.py:205-237 | in a run whose streams all come from this driver an id loses an owner if and only if one of its calls is interrupted before dispatch |
| DriverRuns.DriverSleepers | host_agent_bridge/session_guard.py:347-402 | in such a run a sleeper's record in flight is owned unless a call of its id was interrupted, and one out of flight means that the run offered a terminal that cannot be sized |
| DriverRuns.DriverQuiescence | host_agent_bridge/session_guard.py:347-382 | such a run, when it can go no further, leaves a call unfinished for one of these two reasons only |
| DriverRuns.DriverStrandsIff | host_agent_bridge/http_sse_driver.py:144-168 | over this driver the second of two callers is stranded if and only if the terminal that the first one's frames lead to cannot be sized |
| SseText.TwoReplacementsNormalize | backend/routers/host_agent.py:410-411 | the two replacements read CR LF, LF and CR each as one line end |
| SseText.NormConcat | backend/routers/host_agent.py:410-411 | normalizing is compatible with concatenation except for one LF after a cut CR |
| SseText.SplitConcat | backend/routers/host_agent.py:416 | splitting at blank lines can be resumed from the last part |
| BackendSse.SplitSseFrames | backend/routers/host_agent.py:433-466 | the index loop cuts exactly at the first two consecutive line ends, again and again, and keeps the rest |
| BackendSse.DelimiterMeaning | backend/routers/host_agent.py:441-464 | what it finds is the first blank line of the normalized text, and it never decides on a CR that may still grow |
| BackendSse.FramesResume | backend/routers/host_agent.py:433-466 | whatever text follows, the frames cut so far and the parts of the carried rest are the parts of the whole |
| BackendSse.FramesIncremental | backend/routers/host_agent.py:485-486 | feeding one more chunk after the carried rest finds exactly the frames of the longer text that were not found before |
| BackendSse.ParseSseChunk | backend/routers/host_agent.py:414-430 | the loops over parts and lines yield the last data line of each part under its last event type, or raise |
| BackendSse.StreamQuery | backend/routers/host_agent.py:483-492 | reading chunk by chunk yields what depends on their concatenation only: the events of the whole text, or, if the transport breaks, exactly those of the frames complete by then |
| BackendSse.InterruptedIsAPrefix | backend/routers/host_agent.py:483-492 | a broken transport costs events at the end only, and a frame that raises before it decides the outcome either way |
| BackendSse.StreamingEqualsOneShot | backend/routers/host_agent.py:414-492 | for every text and every cutting, streaming completes with exactly the events of one parse of the whole text, or raises exactly when that raises |
| BackendSse.KindsAreLines | backend/routers/host_agent.py:421-423 | an event type read from a line holds no line end |
| BackendParts.ParsingRaisesIff | backend/routers/host_agent.py:414-430 | parsing raises if and only if some part has a last `data: ` line that is not empty and that the reader rejects |
| BackendParts.ParsedEvents | backend/routers/host_agent.py:414-430 | otherwise the events are, in order, one for each part with such a line: the value the reader gives for its last one, under the type of the last `event: ` line, or `message` |
| BackendParts.YieldedSays | backend/routers/host_agent.py:416-430 | up to the first part that raises, events and carrying parts correspond one to one |
| BackendParts.LinesLaw | backend/routers/host_agent.py:421 | a text is split at every line break of `splitlines`, a CR LF counting once and a final one opening no line |
| BrowserSse.ParseSseFrame | src/lib/api-client.ts:95-128 | the loop reads the last event type and all data lines of a frame, joined |
| BrowserFrames.FrameSays | src/lib/api-client.ts:95-128 | a frame without a data line is skipped; any other is decoded from the value of its last event line, or `message`, and the values of all its data lines in order, joined |
| BrowserFrames.JoinSplits | src/lib/api-client.ts:112-115 | the joined data can be taken apart again into its lines |
| BrowserSse.ParseSseStream | src/lib/api-client.ts:130-172 | draining after every chunk and flushing at the end yields the events of all frames in order, up to the first that throws |
| BrowserSse.FramesAreEffectiveParts | src/lib/api-client.ts:137-146 | all frames handed on are the parts of one text, in which each CR LF cut between chunks counts twice |
| BrowserSse.ChunkInvariantIffCutsSafely | src/lib/api-client.ts:137-146 | the frames are those of the undivided text if and only if no cut separates a CR from its LF |
| BrowserSse.CutCrLfSplitsAFrame | src/lib/api-client.ts:137-146 | two chunks that cut a CR LF turn one event into two frames |
| SseRoundTrip.BrowserRoundTrip | backend/routers/host_agent.py:495-497 | frames written by the backend and cut anywhere are read back by the browser, all and in order |
| SseRoundTrip.BackendReadsItsFrameIff | backend/routers/host_agent.py:419-425 | the backend's parser reads such a frame back if and only if `splitlines` breaks neither its type nor its text |
| NativeEvidence.JournalIdIff | backend/routers/host_agent.py:89-107 | the accepted links without a newline are exactly the canonical routes of canonical ids, and an accepted id is canonical if and only if its link has no newline |
| NativeEvidence.NewlineSlipsThrough | backend/routers/host_agent.py:40 | one link with a newline is accepted with an id that is not canonical |
| NativeEvidence.JournalCandidates | backend/routers/host_agent.py:110-131 | the loop returns the first 20 distinct accepted ids in order of first occurrence, and reports a rejection if and only if a journal link was refused or there were more |
| NativeEvidence.DistinctIsASet | backend/routers/host_agent.py:124-130 | deduplication keeps every id once and loses none |
| NativeEvidence.ReadEvidence | backend/routers/host_agent.py:174-195 | one read per candidate; its evidence is kept in order, and a failure is reported if and only if some read did not verify |
| NativeEvidence.VerifiedIsEvidence | backend/routers/host_agent.py:134-163 | an id's evidence is a valid item carrying that id |
| NativeEvidence.VerifyNativeMarkdownEvidence | backend/routers/host_agent.py:166-216 | the loops and updates relabel the payload from candidates, reads and grade |
| NativeReads.VerifiedIff | backend/routers/host_agent.py:134-163 | a read verifies to an item if and only if it succeeded, in the known version, for this journal's own path, and gives a title and a date that are not blank, the data's own where that counts as true and else the metadata's; the item is then exactly id, path, title and date, stripped, each under its key |
| NativeReads.StripStrips | backend/routers/host_agent.py:158-163 | stripping leaves exactly the part between the spaces at both ends |
| NativeReads.FalsyIff | backend/routers/host_agent.py:152-157 | a value counts as false if and only if it is null, false, a zero or empty |
| NativeReads.DistinctKeepsOrder | backend/routers/host_agent.py:124-130 | the candidates stand in the order of their first links |
| NativeReads.EvidenceIsOfTheVerified | backend/routers/host_agent.py:174-195 | the evidence holds one item for each candidate whose read verifies, in their order, whatever the others do |
| NativeReads.LabelSays | backend/routers/host_agent.py:197-216 | a relabelled answer carries one of three labels, the same at the top and in the answer, each with its own reason and gap text; no trace and no origin |
| NativeReads.TheRestIsKept | backend/routers/host_agent.py:166-216 | every other key of payload and answer keeps its value, and a payload without a summary is left as it is |
| NativeEvidence.GroundedIsEarned | backend/routers/host_agent.py:197-216 | GROUNDED if and only if every `/journal` link is accepted, they name 1 to 20 distinct journals and each was verified by its own read; the evidence is then theirs in order; UNGROUNDED if and only if no candidate verified |
| NativeEvidence.GroundedIsCanonical | backend/routers/host_agent.py:89-131 | when no link holds a newline, accepted means canonical: the candidate ids are exactly the canonical ids routed to, and each evidence item of a GROUNDED answer carries its own canonical id |
| NativeEvidence.VerifiedStaysValid | host_agent_bridge/contracts.py:96-104 | relabelling a valid envelope gives a valid envelope, so mode and evidence always fit |
| Relay.EventGenerator | backend/routers/host_agent.py:520-622 | the generator emits the events before the first terminal and then one conclusion, for every upstream and every way it ends |
| Relay.FinalDataIsValid | backend/routers/host_agent.py:545-578 | whatever the data of an upstream final, the data of the relayed final satisfies the query-response contract |
| Relay.ConclusionIsValid | host_agent_bridge/contracts.py:84-104 | the conclusion always satisfies the query-response contract |
| Relay.ExactlyOneFinal | backend/routers/host_agent.py:528-622 | the output has exactly one `final`, it is last and valid, no `error` passes, and before it stand exactly the upstream events up to the first terminal |
| Relay.UnavailableIsValid | backend/routers/host_agent.py:241-270 | the fallback envelope is valid for every identity and reason |
| Relay.NativeAnswerSurvives | backend/routers/host_agent.py:560-571 | a valid native answer is always relabelled and never replaced by the second fallback |
| RelayAnswers.LeadIsPassedOn | backend/routers/host_agent.py:528-582 | every event before the first terminal is passed on with its own data and kind, or as a `message` if it names none |
| RelayAnswers.AfterError | backend/routers/host_agent.py:533-544 | after an upstream `error` the last event is the fallback with the request's own query, conversation id and request id, each in its place, and the first harmless text among code, reason and nested code and reason as its reason |
| RelayAnswers.AfterFinal | backend/routers/host_agent.py:545-580 | after an upstream `final` it is that answer, relabelled if native; or, if invalid, the fallback with the answer's own identity texts and else the request's |
| RelayAnswers.AfterNothing | backend/routers/host_agent.py:582-622 | without a terminal it is the request's fallback with the reason of how the upstream stopped, and with the class of another exception |
| RelayAnswers.WhenUnconfigured | backend/routers/host_agent.py:520-526 | without configuration it is the request's fallback with the unconfigured reason and text |
| EndToEnd.ServeQuery | backend/routers/host_agent.py:520-624 | the response body is the framing of what the relay emits for the upstream text, arriving whole or broken off; what it emits ends in one valid final and can be written as JSON text |
| EndToEnd.BrowserReadsTheRelay | src/lib/api-client.ts:130-172 | however the body is cut, the browser reads the relayed events in order up to the first that its schema refuses, and throws if and only if there is one |
| EndToEnd.QueryReachesTheBrowser | backend/routers/host_agent.py:469-624 | from upstream chunks to the browser, neither cutting matters: what is read is what the relay emits, up to the first event that the schema refuses |
| EndToEnd.CompactTextIsACodec | host_agent_bridge/contracts.py:150-170 | compact JSON text with a strict reader meets what these results ask of `json.dumps`, of the backend's reader and of the browser's |
| EndToEnd.ThrowsIffRefused | src/lib/api-client.ts:124-127 | the browser throws if and only if some relayed event is of no known kind and shape, and then at the first such event |
| EndToEnd.WholeStreamReadIff | src/lib/schemas.ts:514-521 | it reads the whole stream, final included, if and only if all events before the first terminal are of known kinds and shapes and that terminal, if a `final`, is readable |
| EndToEnd.UnknownKindHidesTheFinal | src/lib/schemas.ts:514-521 | an upstream `ping` before the final is relayed, and the browser throws with nothing read |
| EndToEnd.NullQuoteHidesTheFinal | src/lib/schemas.ts:375-381 | a final that is valid for the backend and has a null quote makes the browser throw with nothing read |
| BrowserSchema.ValidAnswerShownIff | src/lib/schemas.ts:359-430 | of the envelopes valid for the backend the browser accepts exactly those without nulls in their insights and with snippet, excerpt and metadata of its shapes |
| BrowserSchema.ShownIsStable | src/lib/api-client.ts:114-127 | the schema's verdict is the same for what the browser parsed and for what the backend sent, numbers and key order aside |
| Delivery.ConclusionShownIff | backend/routers/host_agent.py:528-622 | the browser accepts the relayed final unless the first terminal upstream is a `final` that is not readable; every fallback is accepted |
| Delivery.RelabelledIsShownIff | backend/routers/host_agent.py:197-216 | a relabelled native answer is accepted if and only if its insights have no nulls, since its evidence is replaced |
| Delivery.RelayedIsWritable | backend/routers/host_agent.py:495-497 | everything the relay emits, its own envelopes and relabelled answers included, has unique keys throughout and can be written as JSON text |
| JsonText.DumpParses | backend/routers/host_agent.py:496 | every value with unique keys, printable integers and float texts is read back from its compact text |
| JsonText.ReadIsWritable | host_agent_bridge/contracts.py:150-170 | the strict reader returns only such values; a repeated key is refused |
| JsonText.TextIsVisible | backend/routers/host_agent.py:496 | the compact text holds no control character, so no line end |
| HostAgentHook.HostAgentStream.constructor | src/hooks/useHostAgent.ts:112-124 | a fresh hook is idle, without turns or requests |
| HostAgentHook.HostAgentStream.Start | src/hooks/useHostAgent.ts:126-224 | `start` up to its first await makes the step the runs use: the previous request is aborted and, if unfinished, its turn cancelled; one new turn and one new request |
| HostAgentHook.HostAgentStream.UpdateTurn | src/hooks/useHostAgent.ts:173-178 | only the turn of a current request is patched |
| HostAgentHook.HostAgentStream.FinishWithError | src/hooks/useHostAgent.ts:199-213 | the first failure of a current request is shown at the top and in its turn, a later one nowhere |
| HostAgentHook.HostAgentStream.Deliver | src/hooks/useHostAgent.ts:237-293 | the loop body for one event makes the step the runs use |
| HostAgentHook.HostAgentStream.End | src/hooks/useHostAgent.ts:295-311 | the code after the loop, or the catch block, and then `finally` make the step the runs use |
| HostAgentHook.HostAgentStream.Timeout | src/hooks/useHostAgent.ts:230-235 | the timer fails a current unfinished request and aborts it |
| HostAgentHook.HostAgentStream.Cancel | src/hooks/useHostAgent.ts:314-337 | cancelling withdraws the active unfinished request and marks its turn |
| HostAgentHook.HostAgentStream.Reset | src/hooks/useHostAgent.ts:339-353 | a reset aborts the active request and clears turns and state |
| HookRuns.StepKeepsInv | src/hooks/useHostAgent.ts:126-353 | the invariant survives every step, and a step other than a reset changes no finished turn |
| HookRuns.DeliverIsMoved | src/hooks/useHostAgent.ts:243-292 | an event of the current request changes its record, the last turn and the top-level state by the same event |
| HookGuarantees.AtMostOneLiveTurn | src/hooks/useHostAgent.ts:126-353 | in every run a turn is connecting or streaming if and only if it is the last and an active request without a terminal stands behind it |
| HookGuarantees.FinishedTurnsAreFinal | src/hooks/useHostAgent.ts:173-213 | over any further run without a reset, finished turns stay as they are, and no turn disappears, changes its query or loses an event |
| HookGuarantees.MirrorAndStory | src/hooks/useHostAgent.ts:215-292 | the top-level state equals the last turn's, and every turn shows what its events said: a live turn is connecting exactly while it has seen only tool events, delta text is their concatenation, evidence, message and phase are what the latest said, the final response that of its last event, the error that of its failure |
| HookGuarantees.LateCallbacksAreIgnored | src/hooks/useHostAgent.ts:180-182 | after any further run, an event, end or timeout of a superseded, withdrawn or finished request changes no turn and nothing at the top |
| HookGuarantees.FencesRaise | src/hooks/useHostAgent.ts:130-163 | a new start, a cancel or a reset makes every earlier request stale |
| HookGuarantees.FreshEventIsAppended | src/hooks/useHostAgent.ts:241-244 | an event of the request that is not stale becomes the next event of the last turn, which ends exactly at a final or error event |
| HookGuarantees.LiveTurnsCanTimeOut | src/hooks/useHostAgent.ts:230-235 | behind a live turn the timer is armed, and when it fires the turn fails and keeps what it had shown |
| HookGuarantees.CatchNeverCancels | src/hooks/useHostAgent.ts:298-305 | the abort branch of the catch block never runs; other exceptions are shown as errors |
| HookGuarantees.StartShows | src/hooks/useHostAgent.ts:126-224 | a start shows one new turn, last, with the query it was given and nothing in it, at the top as well; the turns before keep their queries and events, and a live one is cancelled in favour of a newer request |
| HookGuarantees.CancelShows | src/hooks/useHostAgent.ts:314-337 | a cancel marks a live last turn as cancelled and changes nothing else |
| HookGuarantees.ResetShows | src/hooks/useHostAgent.ts:339-353 | a reset shows no turns and an idle top |
| HookGuarantees.ErrorTextSays | src/hooks/useHostAgent.ts:184-197 | the shown text names the error's own code, else its nested one, if that is 1 to 80 harmless characters |
| HookGuarantees.StatusIsShown | src/hooks/useHostAgent.ts:246-256 | a status event shows its phase and its message, or else its phase text |
| HookGuarantees.EndIsShown | src/hooks/useHostAgent.ts:295-297 | a stream that ends without an answer fails its turn with a fixed text and keeps what it had shown |
| HookRequests.TurnFollowsItsStream | src/hooks/useHostAgent.ts:237-311 | the turn of a request that nothing supersedes, withdraws or times out shows exactly what the events and the end of its stream make of it, whatever callbacks of other requests come in between |
| QueryToHook.TurnIsCompleteIff | src/hooks/useHostAgent.ts:237-311 | such a turn, given what the browser reads of a relayed stream, is complete with the relayed final as its response if and only if the upstream is readable, and otherwise failed with the reader's exception; it lists exactly the events read |
| QueryToHook.UnconfiguredIsComplete | backend/routers/host_agent.py:520-526 | without a configured host agent the turn is always complete, with the fallback envelope |
| QueryToHook.StartAwaits | src/hooks/useHostAgent.ts:126-224 | a start opens a turn whose request waits for its stream |
| QueryToHook.FrameOfSays | src/hooks/useHostAgent.ts:246-293 | an event of a known kind reaches the hook with its own phase, message, items or text |
| SchemaLint.LintCodexSchema | host_agent_bridge/codex_cli_adapter.py:997-1111 | accepts exactly the schemas of the subset whose search in order stays within the depth limit; a refusal other than for depth means it is not in the subset; a depth refusal has a too long path that enters no definition twice; what any other error names is so of the root, of the property total, or of a node on a path from the root or a definition; without such a path acceptance and membership coincide, cyclic or not |
| SchemaOrder.OrderDecides | host_agent_bridge/codex_cli_adapter.py:1102-1110 | one chain of eleven definitions is in the subset in either order, and accepted in one order only |
| SchemaLint.Linter.Visit | host_agent_bridge/codex_cli_adapter.py:1021-1033 | a visit that succeeds found its tree well formed, spent exactly the tree's properties besides those of newly entered definitions and restored the active set; one that raises is justified, and stands at the end of a path to a node with the fault it names |
| SchemaLint.Linter.VisitRef | host_agent_bridge/codex_cli_adapter.py:1038-1049 | a reference must resolve; its definition is entered only if it was not before |
| SchemaLint.Linter.Enter | host_agent_bridge/codex_cli_adapter.py:1046-1049 | a definition is charged once, when it is first entered |
| SchemaLint.Linter.VisitShape | host_agent_bridge/codex_cli_adapter.py:1051-1078 | types, objects and arrays are checked and their children visited |
| SchemaLint.Linter.VisitBranches | host_agent_bridge/codex_cli_adapter.py:1088-1098 | branches are visited, and empty `anyOf` or `enum` lists refused |
| SchemaLint.LintDefinitions | host_agent_bridge/codex_cli_adapter.py:1100-1110 | every definition is visited, referenced or not, and the counter then equals their properties, each counted once |
| SchemaLint.CheckObject | host_agent_bridge/codex_cli_adapter.py:1056-1070 | accepts exactly the closed objects whose `required` lists each property once, and otherwise reports a fault that the object has |
| SchemaLint.Misplaced | host_agent_bridge/codex_cli_adapter.py:1080-1087 | refuses exactly the object and array keywords on nodes of another type, and names one that is there |
| SchemaShape.ReachableNodesAreSound | host_agent_bridge/codex_cli_adapter.py:1016-1111 | in a schema of the subset every node on any path through properties, items, branches and references, from the root or a definition, is locally well formed, however often the path repeats |
| SchemaShape.TotalWith | host_agent_bridge/codex_cli_adapter.py:1071-1073 | entering one more definition adds exactly its own properties to the total |
| SchemaClose.ClosingCloses | host_agent_bridge/codex_cli_adapter.py:904-915 | after closing, every typed object with properties, anywhere, admits no others and requires each of them once |
| SchemaClose.ClosingKeepsTheRest | host_agent_bridge/codex_cli_adapter.py:904-915 | under every other key the closed form of the old value stays |
| ProjectionPaths.ConfiguredQueryProjection | host_agent_bridge/codex_cli_adapter.py:420-472 | accepts if and only if the five paths are pairwise apart, all strictly under the root, and the trace file passes; reports an overlap if and only if there is one, else a path outside the root if and only if there is one, else what is wrong with the trace file |
| ProjectionPaths.TraceAcceptedIff | host_agent_bridge/codex_cli_adapter.py:391-417 | a requested trace file is accepted if and only if its path is absolute and no symbolic link, its directory is there, it does not exist yet, and it lies strictly under the temp directory or under an existing evidence directory |
| ProjectionPaths.NothingIsShared | host_agent_bridge/codex_cli_adapter.py:368-369 | nothing below one accepted path is below, is or contains another |
| ProjectionPaths.TraceIsIsolated | host_agent_bridge/codex_cli_adapter.py:391-417 | an accepted trace file is strictly under the root, and one under the temp directory is apart from the other four paths |
| ProjectionPaths.EvidenceTraceSharedIff | host_agent_bridge/codex_cli_adapter.py:412-416 | an accepted trace file can lie inside a configured directory if and only if that is the temp directory, or the evidence directory exists and overlaps it |
| ProjectionPaths.EvidenceTraceInDataDir | host_agent_bridge/codex_cli_adapter.py:412-416 | an accepted configuration with an accepted trace file inside its data directory |

## Left out

- SchemaLint.Linter: the defensive errors for property and definition names that are not text cannot arise, since JSON keys are text.
- HookGuarantees.LiveTurnsCanTimeOut: says that the timer can fire, not when; clocks are not part of the model.
- Digests are modelled by the compared content, and terminal and JSON sizes (which may be missing), the readers and writers of JSON text and link extraction by functions given as parameters: SHA-256, CPython's and the browser's JSON libraries and the regular-expression engine are not part of this model; `JsonText` shows that what is asked of the JSON functions can be met.
- Lone surrogates and the nesting limit of the JSON readers: a text is a sequence of Unicode scalar values, so that encoding the relayed body cannot fail.
- The values that the browser's schema fills in for absent keys or wraps around a bare delta text, and the schema library's own notion of a record.
- UTF-8 decoding across chunks: chunks are sequences of characters.
- Readiness, profile, authority and payload validation before `_reserve` (`host_agent_bridge/session_guard.py:121-156`): the preparation of an owner is one step that succeeds or fails.
- An interrupt while a waiter sleeps or inside a locked section, and a client that disconnects in the middle of the relay.
- The order in which `close` wakes records: the flags are set under the lock, so no other thread sees it.
- The metadata operation of the driver and its envelope: one request and one response, without a stream.
- The other pydantic envelopes, and fields of the query response that no rule of the relay reads.
- The names of the hook's display phases (the mapping from a status event's phase text is a parameter), query trimming, conversation ids and the effect on unmount; state setters take effect at once.
- Metadata stripping and the open-map projections of the schema builder, which rename or replace fixed keys.
- Symbolic links and the other questions to the file system of the projection checks: paths come resolved, and the trace file's answers are parameters.
- Process control, health views, the command-line runners and all routers other than the host-agent stream.
