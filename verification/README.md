# Verified model of the OCCA run, worker and codec core

OCCA runs teams of agents: a worker wakes them, gateways run their command-line
tools, adapters read what they say. This project models the parts of it that
have to be right over whole runs and proves them in Dafny. `dafny verify
dfyconfig.toml` checks everything.

| files | what they model |
|---|---|
| `Text`, `Utf8`, `Framing`, `Wire`, `WireWitness` | JavaScript string primitives, byte decoding, chunk reassembly, the run protocol's lines |
| `GatewayClient`, `CallVerdicts`, `FrameStream` | the adapter's reconnecting run client |
| `RunRegistry`, `RegistryGrowth`, `RunHistory`, `RejectedRuns`, `Gateway` | the gateway's run registry: as a transition system, and as the objects it is |
| `ResumableRun`, `ReconnectSafety`, `QuietCalls` | registry, other clients, connections and one call together |
| `TaskEventLog` | the optimistic append of task events |
| `RetryPolicy`, `WorkerState`, `WorkerRuns`, `WorkerLaws`, `WorkerQueue`, `WorkerFailures`, `WorkerRows`, `WorkerCards`, `WorkerService` | the worker's trace and task lifecycle, as steps and as operations on tables |
| `Scheduler`, `Delegation`, `DelegationOutcomes` | due triggers, delegated child tasks |
| `Markers`, `Workflows`, `ChatStream`, `ChatOutcomes` | block markers, workflow references and validator, the event-stream reader |
| `Borsh`, `FeeAccount`, `PayoutAssets` | instruction payloads, the fee account, decimal amounts |
| `RpcClient`, `RpcAnswers`, `OpenClaw` | the OpenClaw client: as a transition system, and as the object it is |
| `Seating` | desk assignment |

State machines come in pairs: functions on a state value carry the proofs over
all runs, and a class whose methods follow the source is proved to take exactly
those steps. What the steps mean is stated apart from them, from the rows,
answers and events there were (`CallVerdicts`, `RunHistory`, `WorkerRows`,
`WorkerCards`, `DelegationOutcomes`, `ChatOutcomes`, `RpcAnswers`).

## Assumptions

- One step of the run registry is one stretch of the event loop between
  macrotasks; handlers that were awaiting a run's exit continue in the same
  stretch. The Codex gateway and adapter are the same protocol.
- `EventsDeliveredInOrder` assumes of each step what `ResumableRun.Assumed`
  says: before a reconnect, the first POST reached the gateway, and the key still
  names the run that POST started. `QuietCallsAreAssumed` derives this from what
  other parties do; `ReconnectSafeIff` shows that a reconnect needs it, but for
  the coincidence that the key names a finished run that goes on exactly as the
  call's own did; a whole call shows what happens without each part of it.
- The end-to-end theorems take a callback that does not throw
  (`Wire.Lossless`); `GatewayRun`, `Budget` and `ThrowingCallbackRepeats` cover
  one that does.
- Printing and parsing a line of JSON are functions, with what
  `Wire.Lossless` asks of them: parsing inverts printing, a printed frame is
  one trimmed line, and a line cut short does not parse.
- Streams are text from the framers on. `Utf8` covers the way from bytes: the
  clients' streaming decoder gives the same text for every cut of the bytes, the
  gateways' `toString` per chunk does so exactly if no cut splits a character.
- Ids are fresh: at the start no card mentions a trace of the run
  (`WorkerFailures.Unmentioned`).
- Each worker transaction, and each of the steps named in `WorkerState.Step`,
  is atomic; only the event log is modelled with separate reads and inserts. No
  database call fails.
- A row's id is its index, in order of creation, so creation times never tie.
- Cron, timers and the clock are parameters; a cron expression's next time lies
  in the future.
- `Delegation` handles the replies of one parent one block at a time.

## Where the code surprises

- Two fresh dispatches that overlap on a live run start two processes for one
  key, and the forgotten one later evicts the other
  (`DispatchSafeIffNobodyWaits`, `ForgottenTwinEvictsTheOther`).
- A CLI that cannot be started (its argument list is too long, say) makes the
  handler reject: the client is told `internal_error` as if it were the run's
  result, the record is never done, and its key is stuck: every later dispatch
  waits for good (`FaithfulIffNobodyIsTold`, `LaterDispatchesNeverStart`).
- A retry made while the call's first POST waits for a superseded run is
  attached to the old run (`EarlyRetryGoesWrong`).
- The gateways decode every stdout chunk by itself, so a character cut by a
  chunk boundary is lost (`CutCharacter`, `RoutedLinesIff`).
- An event callback that throws is handed the same event by every reconnect
  (`ThrowingCallbackRepeats`).
- A `null` line makes the client's router throw outside its JSON guard; the
  attempt counts as a broken stream.
- A retry that coalesces into an existing trace counts as not enqueued, so the
  task is parked in `error`, where the worker leaves it, although that trace is
  still active
  (`RetryParksIffUnitBusy`, `ParkedForGood`, `CoalescedRetryParksOpenWork`).
- A trace without agent or adapter, and one whose execution throws outside the
  adapter call, fail without a retry and without a word on the task's card
  (`ToldIffRan`, `SilentRuns`).
- The comments at the head of `task-sync.ts` and above `syncTaskOnTraceFailed`
  say that failed tasks are archived; the code parks failed and timed-out ones
  in `error` and archives cancelled ones only. The model follows the code.
- An OpenClaw handshake refused without an error object throws while logging
  and leaves the connect promise to the timer (`RefusalSettlesConnectIff`).

## Model

| member | source | states |
|---|---|---|
| `Framing.SplitIsFaithful` | packages/gateway-claude-code/src/claude-cli.ts:242-250 | Cutting at a separator loses no character, and no piece and no tail hides a separator. |
| `Framing.SplitOfTerminated` | packages/gateway-claude-code/src/claude-cli.ts:242-250 | Lines without newlines, each terminated, are cut back into exactly those lines: the cut is the only one. |
| `Framing.SplitAppend` | packages/gateway-claude-code/src/claude-cli.ts:241-250 | Text that arrives later never changes the pieces already cut off. |
| `Framing.ChunkingIndependent` | packages/gateway-claude-code/src/claude-cli.ts:241-250 | However a text is cut into chunks, feeding them one by one gives the pieces and the tail of the whole text. |
| `Framing.LineFramer.Consume` | packages/gateway-claude-code/src/claude-cli.ts:241-250 | One stdout chunk routes the non-blank lines it completes and keeps the tail: what was routed is always the split of everything seen. |
| `Framing.LineFramer.Close` | packages/gateway-claude-code/src/claude-cli.ts:286-291 | When the CLI closes its output a non-blank tail is routed as a last line. |
| `GatewayClient.RouteLine` | packages/adapter-claude-code/src/gateway-client.ts:188-204 | One line: blank and malformed lines are skipped, an event is handed over and moves the cursor unless the callback throws on it, a result is stored, a `null` line throws. |
| `GatewayClient.ReadStream` | packages/adapter-claude-code/src/gateway-client.ts:206-226 | The read loop over arbitrary chunks computes what routing the split of the text computes, up to the first throw; a clean end flushes the tail. |
| `GatewayClient.Attempt` | packages/adapter-claude-code/src/gateway-client.ts:153-245 | One POST: the outcome that ends the call (cancelled, unauthorized, refused, the result), or the reason to try again. |
| `GatewayClient.GatewayRun` | packages/adapter-claude-code/src/gateway-client.ts:142-247 | The reconnect loop computes the whole-call function `Play`; it ends with the result or an error, after at most 6 POSTs and 15 s of back-off. |
| `GatewayClient.Budget` | packages/adapter-claude-code/src/gateway-client.ts:148-245 | For every network and callback: at most 6 POSTs, at most 15 s of back-off, and the cursor counts the events the callback took, which are all events handed over exactly if it never threw. |
| `GatewayClient.ThrowingCallbackRepeats` | packages/adapter-claude-code/src/gateway-client.ts:198-228 | A callback that throws on an event is handed it by each of the six POSTs. |
| `GatewayClient.AnsweredFacts` | packages/adapter-claude-code/src/gateway-client.ts:152-245 | What one POST and its answer can do to attempt, cursor, delivered events and back-off. |
| `CallVerdicts.CallDecided` | packages/adapter-claude-code/src/gateway-client.ts:142-247 | Every call, told from the answers alone: it posts again after each answer that concludes nothing, waits 1, 2, 3, 4 and 5 s, and ends on the first other answer or the sixth, with that answer's result or error. |
| `CallVerdicts.CallEndsThere` | packages/adapter-claude-code/src/gateway-client.ts:142-247 | If POST k is reached and its answer aborts, fails, is refused or gives a result, the call ends after exactly k + 1 POSTs as that answer says. |
| `CallVerdicts.CancelledIff` | packages/adapter-claude-code/src/gateway-client.ts:142-247 | The gateway is sent one cancel exactly if the call ended `cancelled`, which is when its last answer found the caller gone; `gateway_unreachable` means six inconclusive answers. |
| `FrameStream.PrefixPieces` | packages/adapter-claude-code/src/gateway-client.ts:209-217 | Whatever prefix of the bytes of written frames was received, its complete lines are the first frames and its tail is a cut of the next one. |
| `FrameStream.ConsumeFrames` | packages/adapter-claude-code/src/gateway-client.ts:207-218 | Reading more bytes, cut anywhere, hands over exactly the frames completed by them. |
| `FrameStream.FlushFrames` | packages/adapter-claude-code/src/gateway-client.ts:218-218 | The flush at the end of a stream adds a frame only if it had arrived whole without its newline; a cut frame adds nothing. |
| `FrameStream.PrefixLines` | packages/adapter-claude-code/src/gateway-client.ts:212-216 | The first k characters of terminated lines are some whole lines and a part of the next one. |
| `RunRegistry.ApplyKeepsDelivery` | packages/gateway-claude-code/src/server.ts:192-386 | Every step keeps: each response holds exactly its run's events from where it attached, then once what ended the run for it, if anything did; a done record has no subscribers. |
| `RunRegistry.EveryRunDelivers` | packages/gateway-claude-code/src/server.ts:192-386 | The same in every reachable registry, rejected runs included: only the response that drives such a run holds its error, and the run is not done. |
| `RejectedRuns.FaithfulIffNobodyIsTold` | packages/gateway-claude-code/src/server.ts:372-386 | In every run of the registry, each response holds its run's history and own result, and nothing else, exactly if no rejection reached a response. |
| `RejectedRuns.RejectionSticks` | packages/gateway-claude-code/src/server.ts:372-386 | A rejected run leaves its key naming a live record without result, timer or waiters woken. |
| `RejectedRuns.StuckForever` | packages/gateway-claude-code/src/server.ts:242-276 | That key stays so, whatever happens later. |
| `RejectedRuns.LaterDispatchesNeverStart` | packages/gateway-claude-code/src/server.ts:247-258 | Every later fresh dispatch for that key, at any time, waits for good and is never sent a byte. |
| `RejectedRuns.FirstRunRejected` | packages/gateway-claude-code/src/server.ts:372-386 | The input: a first dispatch whose CLI cannot be started is answered `internal_error`, its run never done. |
| `RunRegistry.ApplyKeepsExclusive` | packages/gateway-claude-code/src/server.ts:242-324 | Each live record is the one its key names, armed timers belong to finished records the key still names, and each key has at most one waiter; every step keeps this if no fresh dispatch meets a waiting one. |
| `RunRegistry.OrderlyRunsAreExclusive` | packages/gateway-claude-code/src/server.ts:242-324 | In every run in which no fresh dispatch arrives while one waits for its key, at most one CLI process per key is alive. |
| `RunRegistry.EvictionIsOwn` | packages/gateway-claude-code/src/server.ts:324-324 | In such a registry an eviction removes its own finished record and no other entry. |
| `RunRegistry.DispatchSafeIffNobodyWaits` | packages/gateway-claude-code/src/server.ts:247-258 | A dispatch that meets a live run keeps one process per key exactly if nobody was waiting for that key already. |
| `RunRegistry.OverlapBreaksExclusion` | packages/gateway-claude-code/src/server.ts:247-276 | Two dispatches waiting for the same run both start a process when it ends; the map knows only the second. |
| `RunRegistry.ForgottenTwinEvictsTheOther` | packages/gateway-claude-code/src/server.ts:324-324 | The first of such twins, once done, evicts the second while it is live, because eviction deletes by key. |
| `RunHistory.StepChanges` | packages/gateway-claude-code/src/server.ts:242-340 | What a step does to each record, field by field, and to the waiters: a cancel, or a dispatch that meets a live run, aborts the record the key names and no other. |
| `RunHistory.AbortedIsStruck` | packages/gateway-claude-code/src/server.ts:247-340 | In every run a record is aborted exactly if a cancel or a fresh dispatch came while its key named it and it was live; the flag is never taken back. |
| `RunHistory.EventsAreSpoken` | packages/gateway-claude-code/src/server.ts:301-304 | In every run a record holds exactly what its process emitted, in order. |
| `RunHistory.ResultIsExit` | packages/gateway-claude-code/src/server.ts:307-308 | In every run a record holds a result exactly if its process exited with it. |
| `RunHistory.TimerIsArmed` | packages/gateway-claude-code/src/server.ts:256-324 | In every run a record's eviction timer is armed exactly if it ended with nobody waiting and was neither evicted nor replaced since. |
| `RunHistory.WaiterWaitsSince` | packages/gateway-claude-code/src/server.ts:252-258 | In every run a dispatch waits exactly if it met a live run that has not exited since. |
| `RunHistory.DispatchesAreServed` | packages/gateway-claude-code/src/server.ts:247-279 | In every run each fresh dispatch is still waiting for the run it met, or drives a run of its own. |
| `RunHistory.DroppedIsForgotten` | packages/gateway-claude-code/src/server.ts:209-212 | Once an attached response is closed nothing more is ever written to it. |
| `RegistryGrowth.ApplyGrows` | packages/gateway-claude-code/src/server.ts:192-325 | No step ever takes back an event, a result, a written line or an attachment. |
| `Gateway.AttachSubscriber` | packages/gateway-claude-code/src/server.ts:192-213 | Replay from the cursor, then the result and the end, or a subscription: the object graph changes as the registry step says. |
| `Gateway.Server.HandleRun` | packages/gateway-claude-code/src/server.ts:242-276 | A request handler up to its first await, on the objects, is the registry's dispatch or reconnect step. |
| `Gateway.Server.OnEvent` | packages/gateway-claude-code/src/server.ts:301-304 | A line of the CLI is pushed to the record and written to each subscriber, as the registry step says. |
| `Gateway.Server.OnExit` | packages/gateway-claude-code/src/server.ts:307-324 | The exit, together with the handlers that were awaiting it, is the registry's exit step. |
| `Gateway.Server.OnReject` | packages/gateway-claude-code/src/server.ts:372-386 | The error branch of a request whose run was rejected is the registry's failure step: it writes to that response and touches no record. |
| `Gateway.Server.OnEvict` | packages/gateway-claude-code/src/server.ts:324-324 | The timer deletes the map entry by key. |
| `Gateway.Server.HandleCancel` | packages/gateway-claude-code/src/server.ts:330-340 | A cancel aborts the live run of its key and changes nothing else. |
| `Gateway.Server.OnClose` | packages/gateway-claude-code/src/server.ts:209-212 | A closed response leaves the subscribers of its record. |
| `Gateway.Server.Supersede` | packages/gateway-claude-code/src/server.ts:256-276 | What a superseding dispatch does once the old run is over: clear its timer, delete by key, start the new run. |
| `ResumableRun.NextKeeps` | packages/adapter-claude-code/src/gateway-client.ts:142-247 | Every step of the gateway, of other clients, of the connection and of the call keeps the end-to-end invariant. |
| `ResumableRun.EventsDeliveredInOrder` | packages/adapter-claude-code/src/gateway-client.ts:142-247 | However connections are cut, the events handed to the caller are at every moment the first `cursor` events of the run the call started; a returned run result comes after all of them, and is that run's own exactly if the run was not rejected. |
| `ResumableRun.CallIsGatewayRun` | packages/adapter-claude-code/src/gateway-client.ts:142-247 | A finished call in that world is what the reconnect loop computes on the answers the network gave. |
| `ReconnectSafety.EndedResponseFinishes` | packages/adapter-claude-code/src/gateway-client.ts:206-228 | A response that ended and was read to its end finishes the call with what ended its run, every event handed over. |
| `ReconnectSafety.ReconnectSafeIff` | packages/gateway-claude-code/src/server.ts:239-246 | A reconnect keeps the promise to the caller in every continuation exactly if the key still names the call's own run, or a run that is over and goes on just as the call's did. |
| `ReconnectSafety.UnsafeReconnect` | packages/gateway-claude-code/src/server.ts:239-246 | In every other case a continuation in which nothing else goes wrong hands over an event or a result that is not the run's. |
| `QuietCalls.QuietCallsAreAssumed` | packages/gateway-claude-code/src/server.ts:242-276 | The end-to-end assumption, from what others do: if nobody else dispatches the key or evicts the record and the first POST arrives, it is met exactly if every reconnect comes after the superseded run made room. |
| `QuietCalls.LostFirstPostGoesWrong` | packages/adapter-claude-code/src/gateway-client.ts:154-155 | A whole call whose first POST never arrives: it returns the previous turn, events, result and all. |
| `QuietCalls.EarlyRetryGoesWrong` | packages/gateway-claude-code/src/server.ts:252-258 | A whole call that comes back while its first POST waits for the run it supersedes: it can be handed what the old run says. |
| `QuietCalls.EvictionGoesWrong` | packages/gateway-claude-code/src/server.ts:242-276 | A whole call whose record is evicted before it comes back: a second run starts silently and can say something else. |
| `QuietCalls.SupersedingGoesWrong` | packages/gateway-claude-code/src/server.ts:252-276 | A whole call whose run is superseded before it comes back: it is served somebody else's turn. |
| `Utf8.EachAgainstWhole` | packages/gateway-claude-code/src/claude-cli.ts:277-281 | Decoding each chunk by itself gives the text of the whole output exactly if no chunk boundary falls inside a byte sequence; otherwise it has more U+FFFD. |
| `Utf8.TextArrivesIff` | packages/gateway-codex/src/codex-cli.ts:285-285 | Text sent as UTF-8 arrives exactly if every chunk ends where a character ends. |
| `Utf8.CutCharacter` | packages/gateway-claude-code/src/claude-cli.ts:277-281 | The input: one two-byte character cut in half arrives as two U+FFFD. |
| `Utf8.RouteOutput` | packages/gateway-claude-code/src/claude-cli.ts:241-291 | All stdout chunks, decoded one by one and framed, then the close: what is routed are the lines of the decoded text. |
| `Utf8.RoutedLinesIff` | packages/gateway-claude-code/src/claude-cli.ts:241-291 | Those are the lines of the output as a whole exactly if no chunk boundary falls inside a byte sequence. |
| `Utf8.StreamingNeedsNoCondition` | packages/adapter-claude-code/src/gateway-client.ts:184-211 | The streaming decoder of the clients returns the same text for every cut of the same bytes, and well-formed text as it is. |
| `WireWitness.LosslessCodecExists` | packages/gateway-claude-code/src/server.ts:181-187 | The assumption on the line codec can be met. |
| `TaskEventLog.NumbersAreGapless` | packages/shared/src/task-events.ts:126-159 | With any number of interleaved writers the committed numbers of a task are exactly 1..n, in commit order. |
| `TaskEventLog.GivingUpNeedsFiveOthers` | packages/shared/src/task-events.ts:136-158 | A call that gives up saw at least five appends of other calls to its task commit while it ran, and owns no row. |
| `TaskEventLog.ReturnedOwnsOneRow` | packages/shared/src/task-events.ts:138-151 | A call that returned owns exactly one row, with the number it returned. |
| `TaskEventLog.InsertCommitsIff` | packages/shared/src/task-events.ts:136-158 | In every run an insert commits exactly if no other append to the task committed since the call's read; else the call tries again, or gives up after the fifth time. |
| `TaskEventLog.NextKeeps` | packages/shared/src/task-events.ts:130-159 | Every read, insert and failure of every writer keeps the log's invariant. |
| `TaskEventLog.EventTable.Insert` | packages/shared/src/task-events.ts:138-150 | The unique index refuses a taken number and admits the next one. |
| `TaskEventLog.EventTable.AppendTaskEvent` | packages/shared/src/task-events.ts:130-159 | The retry loop succeeds at its first undisturbed attempt, gives up only after five disturbed ones, and rethrows other errors. |
| `WorkerRuns.WakeKeeps` | apps/worker/src/wakeup.ts:80-167 | A wake (unknown agent, idempotency hit, coalescing, new trace) keeps the worker's invariant. |
| `WorkerRuns.ClaimKeeps` | apps/worker/src/dispatcher.ts:51-106 | A claim turns exactly the chosen queued traces into running ones and keeps the invariant. |
| `WorkerRuns.DecideKeeps` | apps/worker/src/dispatcher.ts:691-725 | The retry or continuation decision after a run keeps the invariant. |
| `WorkerRuns.ExecuteKeeps` | apps/worker/src/dispatcher.ts:427-744 | Every interleaving of wakes, ticks and the stages of executions keeps the invariant. |
| `WorkerLaws.UnitsAreExclusive` | apps/worker/src/wakeup.ts:108-142 | At most one queued or running trace exists per agent and work unit. |
| `WorkerLaws.ExecutedAtMostOnce` | apps/worker/src/dispatcher.ts:51-106 | No trace is claimed twice, and exactly the claimed traces have left the queue. |
| `WorkerLaws.WakesAndTokensAddUp` | apps/worker/src/dispatcher.ts:362-405 | Wakes are traces plus coalesced wakes plus idempotency hits; an agent's totals are the sum over its executed traces. |
| `WorkerLaws.AttemptsAreBounded` | apps/worker/src/continuation.ts:39-136 | Retry count at most 3, continuation count at most 2, never both; at most one follow-up per trace. |
| `WorkerLaws.SameKindChainsAreShort` | apps/worker/src/continuation.ts:39-136 | An unbroken stretch of retries has at most 3 and waits at most 750 s; of continuations at most 2. |
| `WorkerLaws.ExhaustedAgreesWithServer` | packages/shared/src/errors.ts:25-42 | The worker says exhausted exactly if the server's classifier does, and never for want of a delay. |
| `WorkerRows.WakeMeans` | apps/worker/src/wakeup.ts:80-167 | What a wake does, told from the rows: nothing for an unknown agent, no row for the key of an active trace, a count on the newest active trace of the unit, else a queued row with the caller's key and schedule. |
| `WorkerRows.RowsAreMade` | apps/worker/src/wakeup.ts:137-163 | Every row of every run was made by a wake as its caller asked, or by the decision about a trace, as its retry due after 30 s, 2 min or 10 min, or its continuation due at once. |
| `WorkerRows.ClaimedWhenDue` | apps/worker/src/dispatcher.ts:67-76 | In every run a claimed row was claimed by a tick at which it was due. |
| `WorkerRows.RetriesBackOff` | apps/worker/src/continuation.ts:39-82 | So a retry is never claimed before its back-off after the decision is over. |
| `WorkerRows.FollowedUpIff` | apps/worker/src/continuation.ts:39-136 | In every run a decision queues a follow-up exactly if the trace failed with one of the five transient codes for less than the fourth time, or made no progress for less than the third on an open task of its agent, and the agent has no active trace for it. |
| `WorkerRows.RowsAreCharged` | apps/worker/src/dispatcher.ts:337-405 | In every run each row is charged exactly what its run reported. |
| `WorkerCards.CardChanges` | apps/worker/src/task-sync.ts:75-357 | What each step writes on a card: status, error code, archive flag and blocks after a start, a success and each kind of failure. |
| `WorkerCards.CardsOnlyGrow` | apps/worker/src/task-sync.ts:187-215 | In every run what a card shows stays, in order; only blank paragraphs give way. |
| `WorkerLaws.StepsMoveTasksForward` | apps/worker/src/task-sync.ts:50-357 | No step moves a task backwards, none leaves `done` or `error`, none takes back a result block or an archive. |
| `WorkerLaws.RunsMoveTasksForward` | apps/worker/src/task-sync.ts:50-357 | The same over whole runs. |
| `WorkerLaws.FailuresAreNeverSilent` | apps/worker/src/dispatcher.ts:706-744 | A trace whose adapter call ended badly has, once settled, a retry behind it, or its task shows the failure and is in `error` or archived, or was done already. |
| `WorkerFailures.ToldIffRan` | apps/worker/src/dispatcher.ts:427-776 | For every run and every bad end of a trace whose task exists and is not done, whatever happens later: a follow-up exists or the card shows the failure exactly if the adapter was called. |
| `WorkerFailures.SilentRuns` | apps/worker/src/dispatcher.ts:427-454 | Whole runs nobody hears of: an unknown adapter leaves the task in `todo`, a crash in `in_progress`. |
| `WorkerFailures.SuccessIsShownIff` | apps/worker/src/task-sync.ts:149-215 | In every run a card shows the success of a trace exactly once that was synced, unless the reply is blank or a nudge follows. |
| `WorkerFailures.RetryParksIffUnitBusy` | apps/worker/src/dispatcher.ts:706-744 | In every run a retriable failure, settled however much later, puts its task in `error` exactly if the agent had an active trace for the task (or one with the retry's key) when the retry was decided; otherwise a retry is queued and the card is untouched. |
| `WorkerFailures.ParkedForGood` | apps/worker/src/task-sync.ts:50-73 | No later step of the worker takes a task out of `error`, and a later success of a trace of it is shown on its card all the same. |
| `WorkerFailures.CoalescedRetryParksOpenWork` | apps/worker/src/continuation.ts:54-82 | A whole run: the task is woken between failure and decision, the retry coalesces, and the task is in `error` with a trace still queued. |
| `WorkerFailures.WorkOfParkedTaskSucceeds` | apps/worker/src/task-sync.ts:149-215 | The run goes on: that trace succeeds, its result is on the card, the task still in `error`. |
| `WorkerQueue.TickServesOldest` | apps/worker/src/dispatcher.ts:67-76 | A tick claims an eligible trace, or a full batch of older ones. |
| `WorkerQueue.QueueIsFair` | apps/worker/src/dispatcher.ts:51-106 | An eligible trace with k older queued traces is claimed within floor(k / limit) + 1 claiming ticks. |
| `WorkerQueue.RoundExtends` | apps/worker/src/wakeup.ts:157-158 | A trace of an open task can always be followed up by the other kind of follow-up, whose counter starts again. |
| `WorkerQueue.MixedChainsAreUnbounded` | apps/worker/src/wakeup.ts:157-158 | So follow-up chains have no common bound: for every n a run with a chain of n follow-ups exists. |
| `WorkerService.Worker.Wakeup` | apps/worker/src/wakeup.ts:80-167 | The transaction is the model's wake. |
| `WorkerService.Worker.ClaimTraces` | apps/worker/src/dispatcher.ts:51-106 | The claim transaction is the model's claim and returns the claimed ids. |
| `WorkerService.Worker.DecideRetryOnFailure` | apps/worker/src/continuation.ts:39-82 | The guard cascade and its wake are the model's retry decision. |
| `WorkerService.Worker.DecideTraceContinuation` | apps/worker/src/continuation.ts:90-136 | The guard cascade and its wake are the model's continuation decision. |
| `WorkerService.Worker.SyncTaskOnTraceStart` | apps/worker/src/task-sync.ts:75-114 | `todo` becomes `in_progress` and loses its error code; nothing else changes. |
| `WorkerService.Worker.SyncTaskOnTraceSucceeded` | apps/worker/src/task-sync.ts:149-255 | Liveness and blank replies leave the card alone; otherwise a result block, and `in_progress`, `review` or `done` from an active state. |
| `WorkerService.Worker.SyncTaskOnTraceFailed` | apps/worker/src/task-sync.ts:273-357 | Unless the task is done: a failure block, then `error` (failed, timed out) or archived (cancelled). |
| `WorkerService.Worker.UpdateRuntimeCounters` | apps/worker/src/dispatcher.ts:362-405 | The upsert adds the run's usage to the agent's totals, or starts them. |
| `WorkerService.Worker.ExecuteClaim` | apps/worker/src/dispatcher.ts:427-744 | One execution from start to end is the run of its own steps in the model. |
| `WorkerService.PlanRuns` | apps/worker/src/dispatcher.ts:427-744 | The steps of one execution lead through start and finish to its tail. |
| `Scheduler.BatchExists` | apps/worker/src/scheduler.ts:57-76 | The due-trigger query always has an answer. |
| `Scheduler.TriggerTable.ClaimDueTriggers` | apps/worker/src/scheduler.ts:47-114 | Each claimed trigger gets its own next time and fire time, each parent routine a stamp, and nothing else changes. |
| `Scheduler.TickServesAhead` | apps/worker/src/scheduler.ts:47-114 | A tick that passes a due trigger over takes 32 others from ahead of it, for good. |
| `Scheduler.DueTriggersAreServed` | apps/worker/src/scheduler.ts:47-114 | A due trigger with k others armed no later is claimed within floor(k / 32) + 1 ticks. |
| `Scheduler.DueAgainIff` | apps/worker/src/scheduler.ts:83-96 | A claimed trigger is due again exactly from the next time its own expression gives, while enabled and its routine active. |
| `Delegation.TaskTable.ExecuteWorkerDelegations` | apps/worker/src/delegation.ts:45-162 | The loop over the reply's blocks computes the fold of the one-block step over its DELEGATE blocks, and the report of it. |
| `Delegation.TaskTable.DelegateOne` | apps/worker/src/delegation.ts:57-158 | One block: invalid payload, foreign target, target already delegated, or a new child that is queued and audited. |
| `Delegation.BlocksAreCounted` | apps/worker/src/delegation.ts:45-188 | Each DELEGATE block is counted once as delegated or ignored, audited once if there is a parent, queued once if delegated. |
| `DelegationOutcomes.BlockMeans` | apps/worker/src/delegation.ts:57-158 | One block, told from the rows: a valid block for a teammate without a child under the parent adds, queues and audits exactly one child with its title, description, criteria, creator and next number; any other adds none and is ignored for its defect. |
| `DelegationOutcomes.ReplyMeans` | apps/worker/src/delegation.ts:45-162 | A reply: its blocks are judged by the rows there were and the blocks before them; ignored ones are reported with their reasons, each other one has its child, in order. |
| `DelegationOutcomes.TeamIsServed` | apps/worker/src/delegation.ts:87-107 | Under a parent, those with a child afterwards are those who had one and the teammates that valid blocks name. |
| `Delegation.RunsKeep` | apps/worker/src/delegation.ts:87-147 | However replies and routines interleave, no two children of a parent share an assignee and a company's task numbers are unique and grow. |
| `Delegation.ChildrenFitTheTeam` | apps/worker/src/delegation.ts:87-107 | A parent never has more children than its emitter has subordinates. |
| `Delegation.ReEmissionIsHarmless` | apps/worker/src/delegation.ts:82-107 | A reply emitted again under the same parent, whatever happened in between, creates no task and queues nothing. |
| `Delegation.OrphansRepeat` | apps/worker/src/delegation.ts:87-87 | Without a parent there is no guard: a repeated block is a repeated task. |
| `Markers.MatchIsExact` | packages/shared/src/markers.ts:43-44 | The matcher finds a block at a position precisely if one stands there, with the shortest body closed by the same token. |
| `Markers.Exec` | packages/shared/src/markers.ts:70-73 | The search from `lastIndex` returns the leftmost block, or none if there is none. |
| `Markers.ExtractActionBlocks` | packages/shared/src/markers.ts:66-94 | The loop returns the leftmost non-overlapping blocks in order, each with its decoded body. |
| `Markers.ExtractionIsUnique` | packages/shared/src/markers.ts:66-94 | A text has one extraction only. |
| `Markers.RoundTrip` | packages/shared/src/markers.ts:43-94 | Blocks printed between bracket-free texts read back as they are exactly if no body holds its own closing tag. |
| `Markers.FencesAreTransparent` | packages/shared/src/markers.ts:79-84 | A JSON object reaches the parser unchanged, bare or in a code fence, untagged or tagged JSON in any letter case. |
| `Workflows.MatchIsExact` | packages/shared/src/workflows.ts:124-129 | The reference matcher finds a reference precisely if one is spelled there, and only one can be. |
| `Workflows.ExtractOutputRefs` | packages/shared/src/workflows.ts:131-139 | The loop returns the references of the text, leftmost first. |
| `Workflows.RefsAreLeftmost` | packages/shared/src/workflows.ts:131-139 | They are a leftmost, non-overlapping reading of the text. |
| `Workflows.ReadingIsUnique` | packages/shared/src/workflows.ts:131-139 | There is one such reading only. |
| `Workflows.ResolveWeaves` | packages/shared/src/workflows.ts:145-152 | Resolving looks up the extracted references, each once and in order, and changes nothing between them. |
| `Workflows.ResolveDependsOnRefs` | packages/shared/src/workflows.ts:141-152 | The result depends on the lookup at the extracted references only. |
| `Workflows.CheckReferences` | packages/shared/src/workflows.ts:208-215 | The innermost loop reports exactly the references that no earlier step answers. |
| `Workflows.CheckInput` | packages/shared/src/workflows.ts:205-217 | The inner loops report exactly the references of one step's input that no earlier step answers. |
| `Workflows.Validate` | packages/shared/src/workflows.ts:191-236 | The one-pass validator reports exactly the violations, and none iff ids are unique, every goto names a step and every input reference a strictly earlier step. |
| `Workflows.ValidStepsReadBackwards` | packages/shared/src/workflows.ts:203-217 | On a valid definition what a step's input resolves to depends on the outputs of earlier steps only. |
| `Borsh.IntegersRoundTrip` | packages/occa-sdk/src/instructions.ts:533-549 | Every integer that encodes reads back, whatever follows it. |
| `Borsh.VecRoundTrips` | packages/occa-sdk/src/instructions.ts:562-564 | Vectors of a round-tripping codec round-trip. |
| `Borsh.OptionRoundTrips` | packages/occa-sdk/src/instructions.ts:567-573 | Options of a round-tripping codec round-trip. |
| `Borsh.SignerRoundTrips` | packages/occa-sdk/src/instructions.ts:621-629 | The doubly optional signer reads back as absent, cleared or set. |
| `Borsh.SetPolicyRoundTrip` | packages/occa-sdk/src/instructions.ts:616-656 | Every `set_policy` payload decodes to exactly the parameters that produced it, whatever follows it. |
| `Borsh.SetPolicyIsPrefixFree` | packages/occa-sdk/src/instructions.ts:616-656 | No payload is a prefix of another; different parameters give different payloads. |
| `Borsh.SetPolicyBuildsIff` | packages/occa-sdk/src/instructions.ts:533-573 | Building throws exactly if a number is out of range or a list too long. |
| `Borsh.UpdateOperationsRoundTrip` | packages/occa-sdk/src/instructions.ts:896-921 | The same for `update_operations_capability`, which is never read as a policy. |
| `Borsh.PolicyFieldsInOrder` | packages/occa-sdk/src/instructions.ts:631-656 | A policy with one field set is the tag, that field at its place among the seven, and single zeros for the others. |
| `Borsh.EntriesInOrder` | packages/occa-sdk/src/instructions.ts:557-559 | A budget entry is mint, then amount; an operations update is whitelist, rate limit, expiry. |
| `Borsh.DigitsAscend` | packages/occa-sdk/src/instructions.ts:533-549 | Numbers are little-endian: byte i is the digit of weight 256^i. |
| `FeeAccount.DecodeProtocolFeeAccount` | packages/occa-sdk/src/accounts.ts:47-90 | The loop over computed offsets is the decoder, and which data throw which error. |
| `FeeAccount.FindSol` | packages/occa-sdk/src/accounts.ts:79-79 | The SOL balance is that of the first all-zero mint, or 0. |
| `FeeAccount.SolIsFirst` | packages/occa-sdk/src/accounts.ts:79-79 | The balance of the first all-zero mint, whatever follows, or 0 without one. |
| `FeeAccount.DecodeInvertsLayout` | packages/occa-sdk/src/accounts.ts:34-90 | Any account, with any number of balances and any padding, decodes to itself. |
| `FeeAccount.DecodesToIff` | packages/occa-sdk/src/accounts.ts:34-90 | Data decode to a complete account exactly if they begin with its layout. |
| `ChatStream.HandleFrame` | packages/adapter-hermes/src/chat-completions.ts:199-228 | One frame: its data lines up to its own `[DONE]`; malformed payloads are skipped, a throwing one ends the reading. |
| `ChatStream.StreamChat` | packages/adapter-hermes/src/chat-completions.ts:190-260 | However the text is cut into reads, deltas, usage and outcome are those of the whole text's payloads; an unterminated tail is dropped. |
| `ChatStream.WrittenStreamReads` | packages/adapter-hermes/src/chat-completions.ts:197-208 | What a server sends payload by payload is what is read. |
| `ChatOutcomes.ReplyMeans` | packages/adapter-hermes/src/chat-completions.ts:199-260 | Whatever a stream says: the texts before the first payload that throws, the usage reported last before it, and completed, cancelled or invalid exactly as the source decides. |
| `ChatOutcomes.FramesRead` | packages/adapter-hermes/src/chat-completions.ts:194-228 | Frames of several data lines are read up to their own `[DONE]`, which ends no other frame. |
| `RpcClient.ApplyKeeps` | packages/adapter-openclaw/src/client.ts:113-452 | Every connect, send, frame, timer, loss and close keeps the client's invariant. |
| `RpcClient.RequestsSettleOnce` | packages/adapter-openclaw/src/client.ts:203-228 | Issued requests split into pending and settled ones, none settles twice, and each pending one has its own armed timer. |
| `RpcClient.ConnectSettlesAtMostOnce` | packages/adapter-openclaw/src/client.ts:368-435 | No connect promise settles twice. |
| `RpcClient.NothingPendingAfterClose` | packages/adapter-openclaw/src/client.ts:176-190 | After a first close or a lost connection nothing is pending until somebody connects again. |
| `RpcClient.AnswersComeFromTheWire` | packages/adapter-openclaw/src/client.ts:289-311 | Every answer a caller gets was sent by the gateway for that very request. |
| `RpcAnswers.EventEndsRequest` | packages/adapter-openclaw/src/client.ts:174-312 | Any event and any request: its caller is told just what ends it (an answer, timeout, lost connection, close, failed send), it leaves the pending map with its timer disarmed, and every other request stays. |
| `RpcAnswers.ToldIffEnded` | packages/adapter-openclaw/src/client.ts:289-311 | In every run a caller is told an answer exactly if a frame with that answer came while its request was pending; likewise for every other ending. |
| `RpcAnswers.EventEndsConnect` | packages/adapter-openclaw/src/client.ts:113-435 | Any event and the connect promises: which is settled with what, whether the client is connected, and what becomes of socket, handshake timer, challenge and connect id. |
| `RpcAnswers.ConnectedIffEnded` | packages/adapter-openclaw/src/client.ts:325-435 | In every run a connect promise is settled so exactly if an event ended its attempt so while it was open. |
| `RpcClient.SecondUseLeaks` | packages/adapter-openclaw/src/client.ts:113-236 | A client used again after a close keeps a request pending through its second close, and a second connect can stay open. |
| `OpenClaw.OpenClawClient.Connect` | packages/adapter-openclaw/src/client.ts:113-134 | The object changes as the model's connect step says. |
| `OpenClaw.OpenClawClient.SendRpc` | packages/adapter-openclaw/src/client.ts:203-228 | Likewise a request: refused, sent, or settled at once if the socket throws. |
| `OpenClaw.OpenClawClient.HandleFrame` | packages/adapter-openclaw/src/client.ts:251-312 | Likewise a frame. |
| `OpenClaw.OpenClawClient.OnTimer` | packages/adapter-openclaw/src/client.ts:139-146 | Likewise a timer, of a request or of the handshake. |
| `OpenClaw.OpenClawClient.OnClose` | packages/adapter-openclaw/src/client.ts:174-189 | Likewise a lost connection. |
| `OpenClaw.OpenClawClient.Close` | packages/adapter-openclaw/src/client.ts:230-236 | Likewise a close. |
| `OpenClaw.OpenClawClient.RejectAllPending` | packages/adapter-openclaw/src/client.ts:437-443 | The loop over the pending map settles every request once and disarms its timer. |
| `PayoutAssets.FormatIsCanonical` | packages/shared/src/payout-assets.ts:52-59 | What is printed has no trailing fractional zeros and no bare dot, and reads as the amount that was printed. |
| `PayoutAssets.CanonicalIsPrinted` | packages/shared/src/payout-assets.ts:52-59 | Conversely every canonical decimal is what its amount prints as, so formatting is a bijection for fixed decimals. |
| `Seating.AssignSeat` | packages/shared/src/seating.ts:131-158 | The two passes compute the seat function: the free CEO desk for the CEO, else the own zone, else the overflow zones in order. |
| `Seating.SeatIsRight` | packages/shared/src/seating.ts:131-172 | A seat that function gives is free and permitted, in the own zone if that has one, else in the first overflow zone that has one; it gives none exactly if all are full. |
| `Seating.PickFreeSeat` | packages/shared/src/seating.ts:160-172 | The first desk of the zone that is free and permitted. |
| `Seating.FewerThan31NeverFails` | packages/shared/src/seating.ts:110-118 | With fewer than 31 desks taken an assignment never fails. |
| `Seating.ThirtyOneCanFail` | packages/shared/src/seating.ts:110-118 | With 31 it can. |
| `Seating.NobodySharesADesk` | packages/shared/src/seating.ts:131-172 | However agents are hired through the assignment and leave, no two share a desk and only the CEO has the CEO's. |
| `Seating.HireFailsIff` | packages/shared/src/seating.ts:131-158 | In any such sequence a hire goes without a seat exactly if the own and all overflow zones are full, so never while fewer than 31 sit. |

## Left out

- The Codex pair (`packages/gateway-codex/src/server.ts`, `packages/adapter-codex/src/gateway-client.ts`): the same protocol, modelled once.
- HTTP, WebSocket, TLS, process spawning, workspaces, auth headers and keys: abstracted to connection and process steps.
- The mapping of CLI lines to events (`handleLine`, `toResult`): field picking without state worth a proof.
- RunResult fields that take no part in the protocol (usage, cost, session id, stop reason).
- `SKIP LOCKED` races and the gap between read and write in task sync: steps are atomic.
- The moment between a trace's first finalization and a crash while its session or counters are stored: the model has the final state only, in which the trace failed and no usage was counted.
- A leading byte-order mark, which the clients' decoder drops and the trimming of lines removes anyway.
- Agents that are deleted while their traces run: the set of agents is fixed.
- Trace events, sessions, ephemeral keys, skill snapshots and prompts: written, never read back by what is modelled.
- Routine firing beyond the wrapper task's number, the reaping of stale wrappers and the backfill of missing times.
- YAML parsing and the field rules of the workflow schema; the validator is modelled on parsed steps.
- `stripOccaMarkers`: removing an inner flag can form a new marker, so nothing strong holds of it.
- Accounts, instructions and signatures on the chain, PDA derivation and hashing.
- Carriage returns in event streams: the reader knows the newline form only, as the code does.
- Floating-point amounts beyond the safe-integer range: amounts are natural numbers.
- Role catalog contents: a role enters as its zone and whether it is the CEO.
- Frames of the OpenClaw protocol that settle nothing, and a literal `null` frame, which throws out of the handler and changes no state.
- Borsh.EncodeU16: NaN and infinities, which the code refuses like every other non-integer.
