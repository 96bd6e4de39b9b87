# Verification model of the LLM proxy

A Dafny model of the stateful engines of an LLM proxy and proofs about them. The proxy relays
chat requests of sites and of employees' agents to OpenAI-compatible providers. The model covers

- reading Server-Sent Events: the incremental parser (`SseParsing`) against a reference that reads one
  code unit at a time (`EventStream`), writing events (`EventRendering`), and what chat events mean
  (`Json`, `ChatChunks`);
- calling providers: deadlines, classification and retries (`RetryPolicy`, `ChatAttempts`), and streaming
  with its one commit (`StreamSinks`, `StreamProxy`);
- fairness between tenants: admission counters, registered requests and the repair of leaked slots
  (`Fairness`, `LiveRequests`; safety in `LeakRepair`, progress in `LeakProgress`, its limits in
  `RepairEdges`, runs without repair in `AdmissionAccounting`), and the three nested queues (`NestedQueues`);
- money: estimates at the administrator's prices (`ProviderPricing`, `PriceLedger`), the compacted price
  history (`PriceHistory`) and the spend reports (`SpendReport`);
- administrators: refresh-token rotation (`Sessions`, `SessionRuns`, `SessionTerms`), failed logins (`LoginThrottling`),
  request limits (`RateLimits`), and importing the staff list (`Identifiers`, `DirectoryImport`);
- joining equal requests (`SingleFlight`).

Objects whose methods change fields are classes. Each method is tied to a specification function on the
object's value or to a ghost history of all calls; lemmas about the specification functions then speak
of whole runs. `Wrappers`, `Cardinality` and `Seconds` hold small shared notions.

## Conventions

- Strings of the source are UTF-16 code units (`Text`) where positions or sizes matter, and `string`
  elsewhere. Money is `real`, integers are unbounded, times are milliseconds.
- The clock, random ids, the provider's replies, write back-pressure, aborts and closes are parameters.
  A clock is assumed not to run backwards where a `requires` says so. `PriceHistory` also says what happens
  when it does: `PriceHistory.AgreesExactly`.
- A byte decoder gives the text of each chunk and, at the end, a rest; `StreamProxy.Decodes` states what
  is used of it. JSON.parse, String(number) and the sheet's case mapping are function parameters.
- Queues follow the contract of a FIFO queue with a concurrency bound. A database transaction is one
  step, row ids are never reused, hashes are injective.

## What the proofs found

- A tenant whose id is "global" shares its key with the global counter in the drift report, and a repair
  can then take a live request's slot, however long the window (`RepairEdges.GlobalNameIsUnsafe`). The
  repair is safe for a set of tenant ids exactly if "global" is not one of them
  (`RepairEdges.SafeWithoutGlobalName`).
- A leak repair can bring a retired slot to zero without deleting it; it goes with the next reload. When
  this happens is `RepairEdges.RepairLeavesRetiredSlot`, a run that does it `RepairEdges.IdleRetiredSlotIsReached`.
- With `sustainTicks` of zero, which the constructor accepts, the repair takes live requests' slots:
  `RepairEdges.NoWindowIsUnsafe`.
- The synthetic error event does not begin with a line break, so a client sees it for certain exactly
  when the provider's stream was cut between two events: `EventRendering.ErrorIsSeenOnlyAtBoundary`.
- It is not so that nothing is retried after the external abort: when it comes in a retry's sleep, one more
  attempt starts (`ChatAttempts.AbortDuringSleep`), and at most one (`ChatAttempts.OneAttemptAfterAbort`). Told by
  the run the call would have without the abort, it happens exactly for an abort in a sleep between two of its
  attempts or at or before its first start (`ChatAttempts.StartsAfterAbortExactly`).
- An error object whose code is neither a string nor a number is always repeated when it comes in a stream,
  and as a reply only if the code found there, or else its type, is on the list of repeated codes
  (`RetryPolicy.ErrorReadBothWays`). An empty error object is therefore treated differently
  (`RetryPolicy.CodelessErrorDiffers`).
- The executions column of the spend report by key adds up to the total exactly when no execution has
  attempts under two tokens: `SpendReport.ExecutionsAddUp`.
- `uniqueId` without a separator can try one name under two numbers (`Identifiers.CandidatesCanCoincide`), so that
  there are more numbers than taken names does not show that it ends. It is enough that there are more numbers of
  one length, since those give different names (`Identifiers.UniqueId`).
- The compacted price history can lose a version when the clock runs backwards
  (`PriceHistory.BackwardClockLosesAVersion`); which syncs do is `PriceHistory.SyncKeepsAnswersExactly`. Order
  within each model is enough to lose none (`PriceHistory.CompactionLosesNothing`).
- Repricing selects attempts by contour, provider, model and date, not by how they were estimated: a price
  set for an OpenRouter provider replaces the catalogue estimates of its attempts, and deleting it removes
  them (`PriceLedger.PriceTakesCatalogueEstimate`). When they survive is `PriceLedger.CatalogueSurvivesPost`,
  `PriceLedger.CatalogueSurvivesReadablePost` and `PriceLedger.CatalogueSurvivesDelete`. The theorem that all
  estimates equal their recomputation therefore speaks of attempts that are not estimated by the catalogue.

## Model

| member | source | states |
|---|---|---|
| EventStream.RunKeepsEvents | src/upstream/sse-parser.ts:83-110 | in the reference reading of a stream, an event once delivered stays delivered whatever follows |
| SseParsing.FieldCut | src/upstream/sse-parser.ts:118-130 | cutting a line at its first colon, without one space after it, gives the name and value of the WHATWG field rules, also for a line without a colon |
| SseParsing.JoinIsBufferWithoutLastLf | src/upstream/sse-parser.ts:149-152 | joining the data lines with LF is the standard's data buffer without its last LF |
| SseParsing.LineConsumed | src/upstream/sse-parser.ts:88-106 | one round of the scanner ends exactly one line of the reference, with any of the three line endings; an LF read as a blank line after a CR changes nothing |
| SseParsing.DrainedTail | src/upstream/sse-parser.ts:94-108 | the tail kept after scanning, a held CR included, contains no event that the reference has finished |
| SseParsing.Utf8AtMostThreePerUnit | src/upstream/sse-parser.ts:163-166 | a text takes at least one and at most three UTF-8 bytes per UTF-16 unit, which makes the cheap test safe |
| SseParsing.Utf8Exactly | src/upstream/sse-parser.ts:163-166 | the bytes of a text: one per unit, one more from 0x80 on, one more from 0x800 on, two less for a surrogate pair |
| SseParsing.SseParser.constructor | src/upstream/sse-parser.ts:52-52 | a new parser has seen nothing and holds nothing |
| SseParsing.SseParser.ParseField | src/upstream/sse-parser.ts:118-147 | the pending event changes as the standard's processing of the line says, and the counted data bytes stay exact |
| SseParsing.SseParser.Dispatch | src/upstream/sse-parser.ts:149-161 | gives the pending event if there was a data line, and forgets data, name and id either way |
| SseParsing.SseParser.ProcessLine | src/upstream/sse-parser.ts:112-116 | a blank line dispatches, any other line is a field |
| SseParsing.SseParser.DrainLines | src/upstream/sse-parser.ts:83-110 | from the resume index on, consumes all complete lines: the events returned are those the reference finds in them, and what stays is an unfinished line or a line with a held CR |
| SseParsing.SseParser.CheckOverflow | src/upstream/sse-parser.ts:163-170 | throws if and only if the exact byte count of data lines and tail exceeds the cap |
| SseParsing.SseParser.RetainedSize | src/upstream/sse-parser.ts:163-170 | what is counted against the cap is at most three bytes per unit received since the stream was last between two events |
| SseParsing.SseParser.Push | src/upstream/sse-parser.ts:55-66 | the events of a push are exactly those whose closing blank line came with it (a held CR delays none), the leading BOM is dropped once, and it throws if and only if data bytes plus tail bytes exceed the cap |
| SseParsing.SseParser.FlushTail | src/upstream/sse-parser.ts:72-80 | at the end an unterminated line counts as a field and the pending event is dispatched |
| SseParsing.SseParser.Flush | src/upstream/sse-parser.ts:69-81 | delivers the rest of the reference's events of the whole stream and leaves an empty parser, so that a second flush adds nothing |
| SseParsing.ParseChunks | src/upstream/sse-parser.ts:55-161 | for every cutting into chunks, pushes and flush together give the events of the character-at-a-time reference on the whole text; an overflow needs an unfinished event longer than a third of the cap |
| EventRendering.RoundTrip | src/upstream/sse-parser.ts:118-161 | events written as fields, with LF, CR or CRLF, are read back as they were, each at its blank line |
| EventRendering.ErrorEventAnywhere | src/agent/errors.ts:56-58 | what a client reads when the proxy's error event is appended to a stream cut anywhere: its first line continues the line and the event under way |
| EventRendering.ErrorIsSeenOnlyAtBoundary | src/agent/errors.ts:56-58 | the error event reaches the client whatever its body if and only if the stream was cut between two events |
| ChatChunks.FactsOfOneMore | src/upstream/openai-compatible-client.ts:141-153 | reading one more event: its usage replaces the last, its id, model and error only fill a gap, [DONE] is remembered |
| ChatChunks.HttpCodeReadsBack | src/upstream/sse-parser.ts:193-196 | for every value: a status is read if and only if it is a whole number from 400 to 599 or the three digits of one |
| ChatChunks.TrimExactly | src/upstream/sse-parser.ts:208-209 | trimming takes all white space off both ends and nothing else |
| ChatChunks.ChunkTells | src/upstream/sse-parser.ts:233-241 | an event whose data are an object that is no error tells exactly the object's own nonempty id and model and its usage object |
| ChatChunks.ChoicesTell | src/upstream/sse-parser.ts:233-241 | it has choices if and only if the object's list of them is not empty, and the finish reason of the first one if that is an object with such a string |
| ChatChunks.ErrorTells | src/upstream/sse-parser.ts:224-231 | an error event tells its code, if that is a string or a number, and its message, and nothing else |
| ChatChunks.ErrorStatus | src/upstream/sse-parser.ts:193-196 | the status of an error event is that of its code or, if that is none, of its status field |
| ChatChunks.OtherDataTell | src/upstream/sse-parser.ts:208-219 | data that are no object tell nothing, except [DONE], which tells the end |
| ChatChunks.BlanksDoNotMatter | src/upstream/sse-parser.ts:208-213 | white space around an event's data changes nothing in its meaning, also around [DONE] |
| ChatChunks.StreamState.constructor | src/upstream/openai-compatible-client.ts:134-139 | a new state has learnt nothing |
| ChatChunks.StreamState.Note | src/upstream/openai-compatible-client.ts:143-151 | how one interpreted event changes the fields |
| ChatChunks.StreamState.Apply | src/upstream/openai-compatible-client.ts:141-153 | after any division into calls the fields are the last usage, first nonempty id and model, first error and [DONE] of all events so far |
| ChatChunks.OwnErrorMeaning | src/upstream/sse-parser.ts:208-241 | the proxy's own error body is interpreted as an error with its code and message, [DONE] as the end |
| ChatChunks.OwnErrorIsUnderstood | src/upstream/sse-parser.ts:208-241 | a second proxy reading a stream that the first one closed with its error event keeps all it learnt before and then learns that error and the end |
| RetryPolicy.Deadline.AttemptTimeout | src/upstream/deadline.ts:16-16 | an attempt gets the longest time within its maximum and the time left, but at least 1 ms |
| RetryPolicy.RetriedStatuses | src/upstream/retry.ts:75-96 | outside 2xx a reply is repeated if and only if its status is 408, 425, 429 or at least 500 |
| RetryPolicy.SuccessExactly | src/upstream/retry.ts:36-73 | for every 2xx reply, told by its fields: it is a success if and only if it has no error object, a first choice not finished with "error", and a message with a content that is neither null nor empty, tool_calls or a refusal; the exact replies of the other three classes likewise |
| RetryPolicy.ReplyErrorTells | src/upstream/retry.ts:41-51 | the code of an error reply is its code, else its type, else "unknown", its message is its own or empty, and it is repeated if and only if that code is on the list |
| RetryPolicy.ReadBothWays | src/upstream/retry.ts:36-73 | the same object as a 2xx reply and as a stream event: a success is a chunk with choices, an error event is an error reply, and an error reply is no error event if and only if it has choices beside the error or its error is an array |
| RetryPolicy.ErrorReadBothWays | src/upstream/retry.ts:41-51 | an error read in both places has the same code if it has one, and is repeated alike if and only if its code is a string or a number, or the reply's code (code, else type, else "unknown") is on the list of repeated codes |
| RetryPolicy.CodelessErrorDiffers | src/upstream/retry.ts:41-51 | an empty error object is repeated as a stream event and not as a reply |
| RetryPolicy.BackoffDoubles | src/upstream/retry.ts:124-127 | the waits double from two seconds and stay at ten |
| RetryPolicy.WaitExactly | src/upstream/retry.ts:124-127 | only a 429 or a 503 with a Retry-After sets the wait; otherwise it is 2, 4, 8 and then 10 seconds |
| ChatAttempts.Attempt | src/upstream/chat-attempt-loop.ts:56-94 | one attempt ends when its reply, its timer or the external abort comes first, and is classified by that |
| ChatAttempts.AttemptExactly | src/upstream/chat-attempt-loop.ts:56-94 | told by the reply, the timer and the abort alone: when an attempt ends, and that only a reply in time and before the abort gives it a class of its own |
| ChatAttempts.WaitsAsTold | src/upstream/chat-attempt-loop.ts:90-93 | the next attempt starts after Retry-After of a 429 or 503, or else after 2, 4, 8 or 10 seconds |
| ChatAttempts.GoesOnExactly | src/upstream/chat-attempt-loop.ts:145-169 | the loop goes on if and only if the class may pass, an attempt is left, nothing aborted, and time is left now and after the wait |
| ChatAttempts.RunChatAttempts | src/upstream/chat-attempt-loop.ts:49-127 | one observation per attempt, numbered 1..n, attemptCount = n; every attempt but the last was retryable, unaborted and had time; the result is the last one's; the code after the loop is reached only if no attempt is allowed |
| ChatAttempts.NothingFinalIsRepeated | src/upstream/chat-attempt-loop.ts:145-169 | an attempt that succeeded, was terminal or ended after the external abort is the last, and the next attempt waits the backoff or Retry-After |
| ChatAttempts.RunIsUnique | src/upstream/chat-attempt-loop.ts:49-127 | the contract of the loop leaves no choice: in a given world observations, result and end are determined |
| ChatAttempts.OneAttemptAfterAbort | src/upstream/chat-attempt-loop.ts:113-118 | an abort during a sleep costs at most one more attempt, which fails at the moment it starts |
| ChatAttempts.SameUntilAbort | src/upstream/chat-attempt-loop.ts:49-127 | the run with the abort and the run without it are the same attempts up to the first one that ends at or after the abort |
| ChatAttempts.StartsAfterAbortExactly | src/upstream/chat-attempt-loop.ts:113-118 | told by the run the call would have without an abort: an attempt starts at or after the abort if and only if the abort comes at or before that run's first start, or in one of its sleeps between attempts |
| ChatAttempts.AbortDuringSleep | src/upstream/chat-attempt-loop.ts:113-118 | such a run: two attempts allowed, the first fails at 10 ms, the abort at 500 ms comes in the sleep, and a second attempt starts at 2010 ms |
| ChatAttempts.EndsByDeadline | src/upstream/chat-attempt-loop.ts:54-58 | with timers on time, attempts start by deadlineAt - minRemainingMs and end by deadlineAt, or 1 ms later if minRemainingMs is 0 |
| ChatAttempts.RunEndsByDeadline | src/upstream/chat-attempt-loop.ts:49-127 | with timers on time the call returns by deadlineAt, or 1 ms later if minRemainingMs is 0, and fails without an attempt if and only if it may not even begin one |
| ChatAttempts.CallFitsBudget | src/upstream/deadline.ts:9-18 | a call with timers on time returns within its budget, or 1 ms later if minRemainingMs is 0 |
| ChatAttempts.WakesInTime | src/upstream/chat-attempt-loop.ts:92-93 | with timers on time, a call that sleeps wakes with time for its next attempt |
| StreamSinks.ReplyStreamSink.constructor | src/agent/reply-stream-sink.ts:25-36 | a new sink has sent nothing |
| StreamSinks.ReplyStreamSink.OnClose | src/agent/reply-stream-sink.ts:31-33 | a close before the end marks the client as gone |
| StreamSinks.ReplyStreamSink.Commit | src/agent/reply-stream-sink.ts:52-61 | one response head however often it is called |
| StreamSinks.ReplyStreamSink.Write | src/agent/reply-stream-sink.ts:63-91 | hands the bytes over unless the client is gone; throws if the client is gone or lost, or the call is aborted, while the response drains |
| StreamSinks.ReplyStreamSink.End | src/agent/reply-stream-sink.ts:93-95 | ends the response unless the client is gone |
| StreamProxy.EarlierEvents | src/upstream/openai-compatible-client.ts:345-348 | the events of the first chunks are the first events of the whole stream |
| StreamProxy.FeedChunk | src/upstream/openai-compatible-client.ts:341-345 | a chunk's events extend the reference's events; an overflow means an unfinished event longer than a third of the cap |
| StreamProxy.AwaitFirstEvent | src/upstream/openai-compatible-client.ts:327-348 | reads up to the first event or the end; then it holds exactly the reference's events so far; it throws only if something disturbs the stream, a size error means that more than the limit came, and without an error no more did |
| StreamProxy.RelayChunk | src/upstream/openai-compatible-client.ts:417-421 | the chunk is handed to the client before its events are read, and a thrown write leaves the state as it was |
| StreamProxy.RelayChunks | src/upstream/openai-compatible-client.ts:414-422 | what reached the client is the body up to the last chunk handed over, and the state has read the same chunks |
| StreamProxy.FinishReading | src/upstream/openai-compatible-client.ts:423-424 | after the flush the state is that of the whole stream; the second flush of a stream that ended before the commit adds nothing |
| StreamProxy.Relay | src/upstream/openai-compatible-client.ts:410-424 | an undisturbed stream is relayed whole and read whole |
| StreamProxy.TryWrite | src/upstream/openai-compatible-client.ts:488-495 | the notice is written whole or, to a client who is gone, not at all |
| StreamProxy.Complete | src/upstream/openai-compatible-client.ts:425-434 | a stream that ended by itself is an upstream error, incomplete or a success by its events; only an incomplete one is told to the client |
| StreamProxy.Interrupted | src/upstream/openai-compatible-client.ts:435-471 | an interruption is told to the client with one error event of its code, a client's own departure with none |
| StreamProxy.InterruptionExactly | src/upstream/openai-compatible-client.ts:435-466 | for each class and each code of an interruption exactly when it is given; no two codes are equal |
| StreamProxy.ProxyAbortIsNamed | src/upstream/openai-compatible-client.ts:435-466 | the proxy's own abort is told by its code, unless the client left, the size limit or the idle limit came first |
| StreamProxy.Pump | src/upstream/openai-compatible-client.ts:402-486 | the client gets a part of the body, all of it if the stream ended by itself, then at most one error event and none for success, upstream error or client abort; the outcome tells the facts of the events read, of all of them if the stream ended by itself, as an undisturbed one does |
| StreamProxy.FirstEventsDecide | src/upstream/openai-compatible-client.ts:350-376 | the first events decide commit, rejection or empty stream as the whole stream's events would, and only a passing failure may be retried |
| StreamProxy.PreCommitExactly | src/upstream/openai-compatible-client.ts:256-273 | status, class, retry and wait after a failure before the commit: 502 if and only if the reply was too large and no own timer ended it, no retry then, nor after the deadline |
| StreamProxy.NonStreamExactly | src/upstream/openai-compatible-client.ts:275-291 | a 200 that is no stream is a final 502, any other reply has its own status and class and is repeated by its class |
| StreamProxy.EmptyStreamExactly | src/upstream/openai-compatible-client.ts:350-358 | a stream without an event is a 502 that is repeated while another attempt is possible |
| StreamProxy.FirstErrorExactly | src/upstream/openai-compatible-client.ts:359-376 | a stream that starts with an error, told by its parsed fields: its status or 502, its code and message, repeated if and only if its code is on the list |
| StreamProxy.StreamBody | src/upstream/openai-compatible-client.ts:319-391 | a committed stream is one whose reference events are not empty and do not start with an error, and if it ends by itself its whole outcome, error code included, is the verdict on its whole text; one that does not commit is empty, rejected or interrupted as its whole text says and sends nothing; an undisturbed stream always reaches its verdict |
| StreamProxy.StreamAttempt | src/upstream/openai-compatible-client.ts:293-399 | the same for every kind of reply, with exactly one observation of the attempt |
| StreamProxy.SameText | src/upstream/openai-compatible-client.ts:341-345 | two bodies with the same bytes, cut differently, have the same text |
| StreamProxy.RunTwoCuttings | src/upstream/openai-compatible-client.ts:293-399 | two executions of an attempt on the same bytes, cut differently and undisturbed, give the same step (commit decision, result, retry, wait, outcome, error code) and send the client the same bytes |
| StreamProxy.ExecuteStreaming | src/upstream/openai-compatible-client.ts:227-239 | over all attempts: each starts in time, another follows if and only if the failure is one that is repeated and there is time for the wait, nothing is sent unless one commits, the committing one is the last and gives the only head, and the bytes sent are its body up to an interruption plus at most one error event |
| Fairness.FairnessManager.constructor | src/concurrency/fairness.ts:50-59 | every registered tenant gets its slot |
| Fairness.FairnessManager.EnsureSlot | src/concurrency/fairness.ts:65-86 | creates the slot, or updates its limits and unretires it, keeping its queue and count |
| Fairness.FairnessManager.SyncClients | src/concurrency/fairness.ts:92-103 | slots of the given tenants are ensured, idle others deleted, busy others retired |
| Fairness.FairnessManager.RetireVanished | src/concurrency/fairness.ts:98-102 | the deleting and retiring half of it |
| Fairness.FairnessManager.TryAdmit | src/concurrency/fairness.ts:109-117 | the verdict in the order client, global, dedup, and both counters raised together if it is ok |
| Fairness.FairnessManager.Release | src/concurrency/fairness.ts:120-127 | both counters fall, never below zero, and a retired slot goes with its last release |
| Fairness.FairnessManager.MeasureDrift | src/concurrency/fairness.ts:170-186 | exactly the scopes whose tracked count differs from the given one, with the difference |
| Fairness.FairnessManager.ReleaseLeaked | src/concurrency/fairness.ts:195-203 | takes the count from one scope alone, never below zero |
| Fairness.SubtractOne | src/concurrency/reconcile.ts:46-68 | repairing one more scope touches that scope alone, so the order of the visits does not matter |
| Fairness.FairnessReconciler.constructor | src/concurrency/reconcile.ts:27-35 | no history at the start, for every sustainTicks |
| Fairness.FairnessReconciler.PushSample | src/concurrency/reconcile.ts:47-50 | a scope's window slides by one sample and keeps at most sustainTicks, none of the others moves |
| Fairness.FairnessReconciler.Visit | src/concurrency/reconcile.ts:46-68 | a scope's window slides by its new sample; a full window with a positive minimum gives that minimum back and starts anew; with sustainTicks 0 the minimum is infinite |
| Fairness.FairnessReconciler.Tick | src/concurrency/reconcile.ts:37-69 | one tick visits every scope with history or drift once; counters and windows are those of the specification for all scopes at once |
| LiveRequests.ActiveMetrics.CountAdmittedByClient | src/concurrency/active-metrics.ts:102-109 | for every client the number of its admitted live requests |
| LiveRequests.ActiveMetrics.CountAdmittedTotal | src/concurrency/active-metrics.ts:112-116 | the number of all admitted live requests |
| LiveRequests.CountOneMore | src/concurrency/active-metrics.ts:102-109 | one more entry raises the count of its client by one if it was admitted |
| LeakRepair.AdmitMoves | src/concurrency/fairness.ts:109-117 | an admission raises counters and holders alike, in its own scope and globally |
| LeakRepair.ReleaseMoves | src/concurrency/fairness.ts:120-127 | a release lowers both; the clamp at zero bites only after a live request's slot was given back |
| LeakRepair.FinishMoves | src/concurrency/fairness.ts:134-146 | a lost release changes no counter: the holder has become a leak |
| LeakRepair.SyncedKeepsCounters | src/concurrency/fairness.ts:92-103 | a reload changes no counter |
| LeakRepair.StepsAreTheService | src/concurrency/fairness.ts:92-127 | the steps of a run change the counters and the registered requests as the manager's, reconciler's and metrics' methods do |
| LeakRepair.HoldingExactly | src/concurrency/fairness.ts:134-146 | a request holds a slot exactly from its admission to its release and is live until it finishes |
| LeakRepair.GoodExactly | src/concurrency/reconcile.ts:42-48 | a tick is good for a scope if and only if the scope's live requests that hold a slot are registered |
| LeakRepair.GoodSample | src/concurrency/reconcile.ts:42-48 | when the scope's live holders are registered the sampled excess is at most the leak |
| LeakRepair.LateFreeSample | src/concurrency/reconcile.ts:42-48 | when nothing of the scope is registered after its release the sampled excess is at least the leak, whatever the counters |
| LeakRepair.SustainedIsLeaked | src/concurrency/reconcile.ts:52-61 | the minimum over a window with one good tick is at most the leak |
| LeakRepair.TickEffect | src/concurrency/reconcile.ts:37-69 | a tick's effect on one scope's counter and window |
| LeakRepair.GivesOnlyLeaks | src/concurrency/reconcile.ts:53-61 | a tick gives back at most what has leaked in that scope |
| LeakRepair.StepSafe | src/concurrency/reconcile.ts:37-69 | every step keeps the safety invariant of a scope whose windows are good |
| LeakRepair.NeverTakesALiveSlot | src/concurrency/reconcile.ts:37-69 | scope by scope (a tenant or the shared counter): over every run whose windows each hold a tick at which the live requests of that scope are registered, its counter stays at least its live holders, and no leaked slot is given back twice; other tenants' late uploads do not matter to a tenant |
| LeakProgress.LeaksAreGivenBack | src/concurrency/reconcile.ts:46-68 | over any run with 2 * sustainTicks - 1 ticks at which nothing of the scope is registered after its release, all slots leaked before it are given back; nothing is assumed of earlier ticks, of the counters or of unregistered requests |
| LeakProgress.LostBecomesGiven | src/concurrency/reconcile.ts:46-68 | so in any run from the start what was lost by some moment is given back |
| LeakProgress.RunNamed | src/concurrency/reconcile.ts:37-69 | every run from the start meets what progress assumes of names and window lengths |
| AdmissionAccounting.ExactAccounting | src/concurrency/fairness.ts:65-127 | without repairs every counter is exactly the outstanding admissions, the global one stays within globalMaxPending, and no retired slot is idle |
| AdmissionAccounting.AdmittedExactly | src/concurrency/fairness.ts:109-117 | without repairs a request is admitted if and only if its tenant's and all outstanding admissions leave room for one more and the dedup map has room |
| AdmissionAccounting.SharedCounterIsSum | src/concurrency/fairness.ts:109-127 | without repairs globalActive is the sum of the slots' counts |
| AdmissionAccounting.RunWithinLimit | src/concurrency/fairness.ts:109-117 | globalActive never exceeds globalMaxPending, with repairs and whatever the tenants are called |
| AdmissionAccounting.RequestKeepsItsQueue | src/concurrency/fairness.ts:130-132 | from admission to release a request finds the same tenant queue, through reloads and repairs, and never the fallback, if its own tenant's windows are good |
| RepairEdges.WholeWindow | src/concurrency/reconcile.ts:46-68 | sustainTicks quiet ticks from empty windows give every positive excess back once and restart its window |
| RepairEdges.GlobalNameIsUnsafe | src/concurrency/fairness.ts:15-15 | for every sustainTicks a run with a tenant called "global" in which a live request loses its slot although every tick was good |
| RepairEdges.SafeWithoutGlobalName | src/concurrency/fairness.ts:170-186 | for every set of tenant ids and every sustainTicks from 1: no run with these ids takes a live slot from a scope with good windows if and only if "global" is not among the ids |
| RepairEdges.RepairLeavesRetiredSlot | src/concurrency/fairness.ts:195-203 | in a state without idle retired slots a step leaves one if and only if it is a tick that gives back all that a retired slot has left |
| RepairEdges.IdleRetiredSlotIsReached | src/concurrency/reconcile.ts:46-68 | a run that leaves one, for every sustainTicks: a tenant vanishes with a lost slot, and the ticks of one window follow; the next reload deletes it |
| RepairEdges.NoWindowIsUnsafe | src/concurrency/reconcile.ts:52-61 | with sustainTicks 0 a run of good ticks takes the slot of a live, registered request |
| NestedQueues.PathsAreOrdered | src/agent/chat-handler.ts:95-103 | an admitted request takes tenant, shared and provider queue in one order; the fallback does not |
| NestedQueues.HandlerIsAdmissible | src/agent/chat-handler.ts:95-103 | with positive limits every arrival of the handler takes its queues in that order |
| NestedQueues.StepOk | src/agent/chat-handler.ts:95-103 | every step keeps each queue a duplicate-free FIFO of exactly its waiting tasks within its concurrency |
| NestedQueues.NoDeadlock | src/agent/chat-handler.ts:95-103 | while a task is in the system some task can move on |
| NestedQueues.StepWorks | src/agent/chat-handler.ts:95-103 | each step that is no arrival lowers the work by one |
| NestedQueues.RunsDrain | src/agent/chat-handler.ts:95-103 | without arrivals a run is no longer than the work, and it can go on until no task is left |
| NestedQueues.TenantShare | src/concurrency/fairness.ts:36-44 | a tenant never has more than its maxConcurrency tasks in or past the shared queue |
| NestedQueues.SharedQueueIsBounded | src/concurrency/fairness.ts:36-44 | waiting and running tasks of the shared queue are at most the sum of the tenants' limits |
| NestedQueues.SharedRankIsBounded | src/concurrency/fairness.ts:36-44 | a task waiting in the shared queue has fewer than that sum before it |
| NestedQueues.RankOnlyFalls | src/concurrency/fairness.ts:36-44 | a waiting task's rank never rises and falls with every start of its queue |
| NestedQueues.ServiceIsFair | src/agent/chat-handler.ts:95-103 | in every state reached from idle by the handler's arrivals: each tenant's share, the bound on the shared queue, the bound on the rank of each waiting task, and no deadlock |
| NestedQueues.RankFallsOverRun | src/concurrency/fairness.ts:36-44 | over such a run, while a task waits, its rank falls by exactly the starts of its queue |
| NestedQueues.FromTenantsKept | src/agent/chat-handler.ts:95-103 | the handler's tasks keep every shared task one of a known tenant |
| NestedQueues.FallbackDeadlocks | src/concurrency/fairness.ts:130-132 | nesting the shared queue in itself deadlocks whatever its limit: as many arrivals as it has slots, each started once, leave tasks and no step that is possible |
| ProviderPricing.EveryTokenPaidOnce | src/billing/provider-pricing.ts:89-105 | every prompt token is paid once, cached ones at the cache price; an estimate exists if and only if there is a price and a token |
| ProviderPricing.EstimateExactly | src/billing/provider-pricing.ts:68-105 | for every price, UTC day, hour and rest of the hour: the base tariff holds if and only if there is no other, or the hour is in a listed range and not excluded by a weekend (weekdays counted from Saturday, 3 January 1970); the sum of money and the quality at that tariff |
| PriceLedger.RowAtIsLatest | src/storage/provider-prices-repo.ts:63-67 | the query finds a matching version that no matching version comes after, and nothing if none matches |
| PriceLedger.RowAtIsInForce | src/storage/provider-prices-repo.ts:63-67 | the version found is saved for the provider and model, in effect by then, and the newest by date, then by id |
| PriceLedger.EstimatedAt | src/billing/provider-reprice.ts:9-26 | an attempt is estimated at the tariff of its own start's hour and day, of the version in force then, and names that version |
| PriceLedger.RepricedExactly | src/storage/provider-prices-repo.ts:79-84 | a posted price changes exactly the estimates of unmeasured agent attempts at its provider and model from its date on |
| PriceLedger.ClearedExactly | src/storage/provider-prices-repo.ts:88-91 | a deletion empties exactly the estimates of unmeasured agent attempts at that provider and model |
| PriceLedger.LatestRowExactly | src/storage/provider-prices-repo.ts:68-75 | the last version of a model is the one with the greatest id |
| PriceLedger.RepricingIsEnough | src/storage/provider-prices-repo.ts:79-84 | after a new version, repricing only its model's rows from its effective date makes every estimate equal to full recomputation |
| PriceLedger.ClearingIsEnough | src/storage/provider-prices-repo.ts:88-91 | after deleting a model's versions, clearing its estimates does the same |
| PriceLedger.RecomputedNamesVersion | src/billing/provider-reprice.ts:9-26 | a recomputed estimate names its price version if and only if there is a price and a token; otherwise it is empty |
| PriceLedger.CatalogueSurvivesPost | src/storage/provider-prices-repo.ts:79-84 | for all tables and prices: a posted price leaves all catalogue estimates as they were if and only if every one it selects was empty and there is nothing to price |
| PriceLedger.CatalogueSurvivesReadablePost | src/storage/provider-prices-repo.ts:79-84 | with readable prices that is: if and only if it selects only zero-token attempts whose catalogue estimate was empty |
| PriceLedger.CatalogueSurvivesDelete | src/storage/provider-prices-repo.ts:143-145 | a deletion leaves them if and only if the model had no price or the catalogue estimates it clears were empty |
| PriceLedger.PriceTakesCatalogueEstimate | src/admin/routes/providers.ts:191-218 | an OpenRouter attempt recorded with one dollar: a posted price makes it two, and deleting the price leaves none |
| PriceLedger.Ledger.PriceAt | src/storage/provider-prices-repo.ts:116-119 | the version in force at a moment |
| PriceLedger.Ledger.EstimateNow | src/journal/billing-sink.ts:42-47 | an attempt's estimate, quality and version id at the price in force when it started |
| PriceLedger.Ledger.InsertAttempt | src/journal/billing-sink.ts:35-87 | for both contours an inserted attempt carries its recomputed estimate, OpenRouter's its catalogue estimate; a repeated attempt is ignored |
| PriceLedger.Ledger.Reprice | src/billing/provider-reprice.ts:9-26 | the loop changes exactly the selected rows, to their recomputed estimates |
| PriceLedger.Ledger.InsertPrice | src/storage/provider-prices-repo.ts:103-113 | the new version has a fresh id |
| PriceLedger.Ledger.SetPrice | src/admin/routes/providers.ts:191-198 | the price transaction keeps all estimates equal to recomputation, from any effective date |
| PriceLedger.Ledger.DeletePrices | src/admin/routes/providers.ts:213-218 | so does the deletion, also when there was no version |
| PriceLedger.Ledger.DeleteModel | src/storage/provider-prices-repo.ts:128-132 | the versions of other models and providers stay |
| PriceLedger.Ledger.ClearEstimates | src/storage/provider-prices-repo.ts:143-145 | exactly the model's unmeasured attempts lose their estimates |
| PriceLedger.Ledger.PricedModels | src/storage/provider-prices-repo.ts:121-125 | the models with a readable latest version |
| PriceLedger.Ledger.Seed | src/billing/seed-provider-prices.ts:93-105 | seeding keeps estimates equal to recomputation, leaves models the administrator priced alone, and happens once per list and provider |
| PriceHistory.LatestMeaning | src/storage/billing-repo.ts:276-290 | the query finds the last version observed by then, of equals the one with the larger id |
| PriceHistory.BillingRepo.LatestPriceVersion | src/storage/billing-repo.ts:453-455 | the latest version |
| PriceHistory.BillingRepo.PriceVersionAt | src/storage/billing-repo.ts:457-459 | the version in force at a moment |
| PriceHistory.BillingRepo.UpsertPriceVersions | src/storage/billing-repo.ts:467-479 | a batch writes the rows whose hash differs from the latest version at their turn, and counts them |
| PriceHistory.CompactionLosesNothing | src/storage/billing-repo.ts:467-479 | for syncs that are chronological for each model, repeats included, every point-in-time query and the latest version give the pricing that the full log would give |
| PriceHistory.SyncKeepsAnswersExactly | src/storage/billing-repo.ts:467-479 | for a row of any time: the table keeps giving the log's answers if and only if it has the row's hash already at the row's own time, or the row is written and after it the log saw the model only at or after a later stored version |
| PriceHistory.AgreesExactly | src/storage/billing-repo.ts:467-479 | for every log in any order: the table is right after every sync if and only if each row meets that condition at its turn |
| PriceHistory.BatchesCompose | src/storage/billing-repo.ts:467-479 | two batches are one long batch |
| PriceHistory.NoRepeatedVersions | src/storage/billing-repo.ts:461-466 | no two consecutive stored versions of a model are equal |
| PriceHistory.BackwardClockLosesAVersion | src/storage/billing-repo.ts:471-472 | with a clock that runs backwards a version can be lost: a repeated price observed before the stored one |
| SpendReport.OfBoth | src/storage/billing-repo.ts:377-383 | rows divide between two sets of token ids, column by column, NULL being an id of its own |
| SpendReport.ColumnsExactly | src/storage/billing-repo.ts:198-213 | what each column holds: the sum of the reported costs, the sum and number of the estimates of unreported rows, the number of rows with neither, and the sum of each token field |
| SpendReport.InRangeExactly | src/storage/billing-repo.ts:372-383 | the rows of the period are those of the agent contour from its first to its last day, each as often as in the table |
| SpendReport.LinesExactly | src/storage/billing-repo.ts:372-404 | one line for each key with spend and each token in force, none twice, with the columns and executions of its own rows, NULL without rows |
| SpendReport.ReportAddsUpToTotal | src/storage/billing-repo.ts:372-404 | the lines of the report by key add up to the period's total in every column, with null, unknown and revoked tokens |
| SpendReport.ExecutionsAddUp | src/storage/billing-repo.ts:372-404 | the executions of the lines add up to the total if and only if no execution has attempts under two tokens, and are more otherwise |
| SpendReport.EveryAttemptIsOneOfThree | src/storage/billing-repo.ts:198-213 | each attempt is exactly one of measured, estimated and missing |
| Sessions.SessionService.Issue | src/admin/auth/session-service.ts:128-157 | a new row with a fresh id, its refresh term cut at the family's absolute end |
| Sessions.SessionService.Login | src/admin/auth/session-service.ts:117-125 | expired rows go and a new family starts |
| Sessions.SessionService.Refresh | src/admin/auth/session-service.ts:159-180 | the outcome and the table after it: rotation, conflict within grace, reuse and expiry revoking the family |
| Sessions.SessionService.Logout | src/admin/auth/session-service.ts:195-202 | the family of the session and that of the refresh token are revoked |
| SessionRuns.StepsAreTheService | src/admin/auth/session-service.ts:107-202 | the steps of a run change the table as these methods do |
| SessionRuns.OneMoreStep | src/admin/auth/session-service.ts:107-202 | a run takes its steps one after the other |
| SessionRuns.StepOk | src/admin/auth/session-service.ts:107-202 | every step keeps the table in agreement with the record of families |
| SessionRuns.FamiliesAreWhole | src/storage/admin-sessions-repo.ts:43-65 | in every reachable table a family has exactly one unreplaced row, one admin, one absolute expiry, and is wholly revoked or wholly unrevoked |
| SessionRuns.OneChain | src/admin/auth/session-service.ts:176-177 | a family's rows are one chain of replaced_by links in the order of issue |
| SessionRuns.ActiveExactly | src/storage/admin-sessions-repo.ts:58-64 | isFamilyActive is true if and only if the family is neither revoked nor purged, its admin is enabled and its term not over |
| SessionRuns.RefreshExactly | src/admin/auth/session-service.ts:163-178 | in every reachable table a refresh succeeds if and only if its token is the newest of a family not ended, within both terms; older tokens are a conflict within the grace window and a reuse after it |
| SessionRuns.EndsFamily | src/admin/auth/session-service.ts:167-175 | reuse outside the grace window, expiry, logout and revocation end the family |
| SessionRuns.OnlyTheseEnd | src/admin/auth/session-service.ts:107-202 | no other step ends a family, and a login purges only a family past its term |
| SessionRuns.EndedForever | src/admin/auth/session-service.ts:167-175 | an ended family is never active again, whatever follows |
| SessionRuns.SucceedsAtMostOnce | src/admin/auth/session-service.ts:163-178 | each refresh token succeeds at most once in any run |
| SessionRuns.NothingOutlivesLogin | src/admin/auth/session-service.ts:132-133 | no chain of refreshes is active or succeeds after login time plus the absolute term |
| SessionTerms.RefreshByTheClock | src/admin/auth/session-service.ts:159-180 | after every run, told by the recorded moments of login, issue and use and not by the table: the newest token of a family not ended succeeds if and only if its admin is enabled, now is before its issue plus the refresh term and before the login plus the absolute term; an older one is a conflict until its own use plus the grace period |
| SessionTerms.AccessByTheClock | src/storage/admin-sessions-repo.ts:58-64 | an access check passes if and only if the family was not ended, its admin is enabled and now is before the login plus the absolute term |
| SessionTerms.RunTerms | src/admin/auth/session-service.ts:132-133 | in every reachable table the refresh term of a row is the earlier of its issue plus the refresh term and its family's end |
| LoginThrottling.ReleaseIsExact | src/admin/auth/login-throttle.ts:56-56 | the computed moment is the first at which fewer than maxAttempts failures are in the window |
| LoginThrottling.LoginThrottle.constructor | src/admin/auth/login-throttle.ts:32-42 | no failures at the start |
| LoginThrottling.LoginThrottle.ForgetOldOf | src/admin/auth/login-throttle.ts:89-97 | one login loses exactly its failures outside the window |
| LoginThrottling.LoginThrottle.Prune | src/admin/auth/login-throttle.ts:87-98 | forgetting keeps of every login's history what any later answer depends on |
| LoginThrottling.LoginThrottle.Check | src/admin/auth/login-throttle.ts:49-59 | blocks if and only if the whole history since the last reset has maxAttempts failures in the window; the returned seconds are the least after which it does not |
| LoginThrottling.LoginThrottle.Fail | src/admin/auth/login-throttle.ts:62-73 | adds one failure and returns the number in the window |
| LoginThrottling.LoginThrottle.Reset | src/admin/auth/login-throttle.ts:76-78 | the login starts anew, the others do not |
| LoginThrottling.LoginThrottle.Size | src/admin/auth/login-throttle.ts:81-84 | the number of logins with a failure in the window |
| RateLimits.FewerThanTwiceMax | src/agent/limiters.ts:18-29 | in any interval of one window's length fewer than twice max hits of a key are allowed |
| RateLimits.WindowRateLimiter.constructor | src/agent/limiters.ts:11-15 | no hits at the start |
| RateLimits.WindowRateLimiter.Prune | src/agent/limiters.ts:31-35 | nothing is forgotten within a window's length of the last pruning, and then exactly the windows that have ended, whose loss changes no answer |
| RateLimits.WindowRateLimiter.Hit | src/agent/limiters.ts:18-29 | answers as a limiter that never forgets: allowed if and only if among the first max hits of the window, with the exact wait |
| SingleFlight.ActiveRequests.RegisterOrJoinTracked | src/dedup/active-requests.ts:50-71 | joins the entry of the key, or runs the factory if there is room, or refuses |
| SingleFlight.ActiveRequests.OnSettled | src/dedup/active-requests.ts:66-68 | a settled run removes its own entry and no other |
| SingleFlight.OneFlightPerKey | src/dedup/active-requests.ts:50-71 | over all interleavings at most one execution of a key is unsettled |
| SingleFlight.FlightIsShared | src/dedup/active-requests.ts:50-71 | from a registration to its settlement every caller with the key gets its promise and execution id; nothing evicts it |
| SingleFlight.RunsAreIds | src/dedup/active-requests.ts:50-71 | with fresh candidate ids, the factory ran as often as distinct execution ids were handed out |
| Identifiers.DecimalReadsBack | src/utils/translit.ts:43-43 | String(n) consists of digits and determines n |
| Identifiers.CandidateIsId | src/utils/translit.ts:43-44 | a candidate from a valid base is valid and short enough while its suffix leaves room for one character |
| Identifiers.CandidateExactly | src/utils/translit.ts:43-44 | a candidate is the longest part of the base that fits and does not end in a mark, the separator and the number |
| Identifiers.CandidatesCanCoincide | src/utils/translit.ts:43-44 | two numbers can give the same candidate when no separator is used |
| Identifiers.UniqueId | src/utils/translit.ts:40-47 | the loop ends for every finite set of taken names smaller than the numbers of d digits, with the base or the first free candidate |
| Identifiers.LoginFromFio | src/utils/translit.ts:17-27 | the login made from any words, transliterated by the table, matches the login pattern |
| Identifiers.LettersInLatin | src/utils/translit.ts:1-5 | Russian letters become Latin ones, every other character stays |
| Identifiers.TranslitAppend | src/utils/translit.ts:7-11 | a text is transliterated character by character |
| Identifiers.CleanedExactly | src/utils/translit.ts:18-21 | each word is transliterated, keeps only letters, digits and dashes, loses the dashes at its ends, and goes if nothing is left |
| Identifiers.LoginOfWords | src/utils/translit.ts:22-26 | the login is that of the first word and the first letters of the next two; without words it is emp |
| Identifiers.LoginExactly | src/utils/translit.ts:25-26 | the surname stays if dot and initials fit; otherwise it is cut and loses the dashes before the cut |
| Identifiers.SlugFromName | src/utils/translit.ts:30-37 | the slug made from any name, transliterated by the table, matches the slug pattern |
| Identifiers.DashedWord | src/utils/translit.ts:32-32 | words stay |
| Identifiers.DashedGap | src/utils/translit.ts:32-32 | each run of other characters becomes one dash |
| Identifiers.SlugExactly | src/utils/translit.ts:30-37 | the slug is the dashed name without dashes at its beginning, cut to 32 and without dashes before the cut; without a word it is dept |
| Identifiers.FreshId | src/admin/import/directory-import.ts:82-83 | a generated identifier is the base or the first free candidate after it, and matches its pattern |
| DirectoryImport.IndexOf | src/admin/import/directory-import.ts:30-32 | the first cell with the title, or none |
| DirectoryImport.ClassExactly | src/admin/import/directory-import.ts:64-78 | told by its two cells: when a row is blank, invalid, existing, a duplicate or new |
| DirectoryImport.FindHeader | src/admin/import/directory-import.ts:28-36 | the first of the first ten rows with both titles, if any |
| DirectoryImport.RowsAddUp | src/admin/import/directory-import.ts:61-77 | every row below the header is in exactly one class |
| DirectoryImport.CompleteIsCovered | src/admin/import/directory-import.ts:74-78 | every complete row's key is known or is that of a new row |
| DirectoryImport.NewKeysDiffer | src/admin/import/directory-import.ts:74-78 | no two created employees share a name key, with each other or with an existing one |
| DirectoryImport.IndexDepartments | src/admin/import/directory-import.ts:51-55 | of departments with the same key the first in the list is taken |
| DirectoryImport.DirectoryRepo.CreateDepartment | src/storage/directory-repo.ts:120-125 | adds a department with a fresh id, slugs staying distinct |
| DirectoryImport.DirectoryRepo.CreateEmployee | src/storage/directory-repo.ts:101-105 | adds an employee, logins staying distinct |
| DirectoryImport.DepartmentFor | src/admin/import/directory-import.ts:80-90 | the row's department by name key, or a new one with the slug of its name or the first free candidate after it |
| DirectoryImport.ImportEmployee | src/admin/import/directory-import.ts:92-96 | a new employee in that department, with the login of its name or the first free candidate after it |
| DirectoryImport.Classify | src/admin/import/directory-import.ts:64-78 | the loop's tests put a row into the class that the sheet and the names known before determine |
| DirectoryImport.ImportNewRow | src/admin/import/directory-import.ts:78-97 | a new row makes one employee and at most one department |
| DirectoryImport.ImportRows | src/admin/import/directory-import.ts:61-98 | the lists of the summary are exactly the classes of the rows, and the tables gain exactly what they say, with logins and slugs made from the names in order |
| DirectoryImport.ImportDirectory | src/admin/import/directory-import.ts:42-105 | the whole import; without a header nothing changes; the lists add up to rowsTotal |
| DirectoryImport.SecondImportMakesNothing | src/admin/import/directory-import.ts:74-78 | once the names are known the same rows make nothing |
| DirectoryImport.ImportTwice | src/admin/import/directory-import.ts:42-105 | importing the same sheet again leaves both tables as they are |

## Left out

- LeakProgress.LeaksAreGivenBack: assumes that at the ticks of the run no request of the scope is registered after its release, as the code's comment does; without it a leak may be given back later
- StreamProxy.AwaitFirstEvent: the parser's own overflow is excluded by a sufficient condition on the text (no unfinished event longer than a third of the cap), because the exact byte count depends on where a chunk ends
- DirectoryImport.ImportDirectory: the names of departments in the summary and the warnings are not part of the summary; logins are compared exactly, the database also ignores case, which is the same for logins that match the pattern
- Identifiers.LoginFromFio: starts from the lower-case words; case mapping and splitting at white space are the language's
- Identifiers.SlugFromName: starts from the lower-case name; case mapping is the language's
- ChatChunks.StreamState.Apply: the raw usage object is kept; its later normalisation is not modelled
- StreamProxy.Interrupted: error messages are a function of the code; their wording and sanitising are not modelled
- ChatAttempts.RunChatAttempts: bodies, headers and journal fields of results other than classification and attempt count are not modelled; a refused sleep is not interrupted by an abort, as in the code
- PriceHistory.CompactionLosesNothing: compares pricing hashes, which stand for the pricing
- Sessions.SessionService.Login: password checking, its parallelism limit and the throttle gate are not part of the session model
- FairnessManager.reconcile, which the service does not use for its repair
- requests joined by deduplication that later start an execution of their own without admission, and password changes during a login
- NestedQueues uses fixed limits; changing a queue's concurrency while tasks wait is only part of `Fairness`
- HTTP framework, sockets, undici, Telegram, configuration, logging, alert wording, pages and views
- cryptography, signatures and CSRF tokens, which are taken as ideal
- catalogue fetching and field copying of price-sync.ts, apart from the batches it writes
- rounding of costs and the calendar of billing days
- AuthFailureMonitor and the other small counters, which would only add easy members
