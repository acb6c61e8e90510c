/**
 The worker's database and its atomic steps: waking an agent, claiming queued
 traces, and the stages of executing one claimed trace. Executions of different
 traces interleave between the steps.
 */
module WorkerState {
  import opened Text
  import opened RetryPolicy

  type AgentId = string
  type TaskId = string

  datatype Liveness = Normal | PlanOnly | EmptyResponse
  datatype TraceStatus = Queued | Running | Succeeded | Failed | Cancelled | TimedOut
  datatype TaskStatus = Todo | InProgress | Review | Done | Blocked | Error

  datatype Usage = Usage(tokensIn: nat, tokensOut: nat, cachedTokensIn: nat, costCents: nat)

  // What the dispatcher learns about one execution: no agent or adapter, an
  // exception outside the adapter call, or the adapter's result.
  datatype Run =
    | Unresolvable(code: string)
    | Crashed
    | Ran(outcome: TraceStatus, errorCode: Option<string>, liveness: Option<Liveness>, usage: Option<Usage>, reply: Reply)

  // The facts about the reply text that decide the task's next status.
  datatype Reply = Reply(blank: bool, review: bool, delegates: bool)

  // Where a trace's execution stands in the worker process.
  datatype Stage = Idle | Claimed | Started | Finalized(run: Run) | Synced(run: Run) | Decided(run: Run, enqueued: bool) | Over(run: Run)

  datatype IdempotencyKey =
    | RetryKey(trace: nat, attempt: nat)
    | ContinuationKey(task: TaskId, trace: nat, liveness: Liveness, attempt: nat)
    | CallerKey(key: string)

  // A row of the traces table; its id is its index, in order of creation.
  datatype Trace = Trace(agent: AgentId, task: Option<TaskId>, key: Option<IdempotencyKey>, status: TraceStatus,
                         scheduledAt: Option<nat>, failureRetryAttempt: nat, continuationAttempt: nat,
                         retryOf: Option<nat>, coalesced: nat, delayMs: nat, usage: Usage)

  datatype Block = Paragraph(text: string) | AgentResult(trace: nat, failure: bool)
  datatype Task = Task(status: TaskStatus, assignee: Option<AgentId>, archived: bool, errorCode: Option<string>, blocks: seq<Block>)

  // `wakes` and `duplicates` count wakeup calls and idempotency hits; `claims` lists claimed ids.
  datatype Db = Db(agents: set<AgentId>, traces: seq<Trace>, stages: seq<Stage>, tasks: map<TaskId, Task>,
                   totals: map<AgentId, Usage>, wakes: nat, duplicates: nat, claims: seq<nat>)

  const NO_USAGE := Usage(0, 0, 0, 0)

  function AddUsage(a: Usage, b: Usage): Usage {
    Usage(a.tokensIn + b.tokensIn, a.tokensOut + b.tokensOut, a.cachedTokensIn + b.cachedTokensIn, a.costCents + b.costCents)
  }

  predicate Active(t: Trace) {
    t.status == Queued || t.status == Running
  }

  // ---- wakeup ------------------------------------------------------------------

  datatype WakeInput = WakeInput(agent: AgentId, task: Option<TaskId>, key: Option<IdempotencyKey>,
                                 scheduledAt: Option<nat>, failureRetryAttempt: nat, continuationAttempt: nat,
                                 retryOf: Option<nat>, delayMs: nat)

  datatype WakeResult = AgentNotFound | Woken(trace: nat, coalesced: bool)

  predicate SameKey(t: Trace, input: WakeInput) {
    Active(t) && t.agent == input.agent && input.key.Some? && t.key == input.key
  }

  predicate SameUnit(t: Trace, input: WakeInput) {
    Active(t) && t.agent == input.agent && t.task == input.task
  }

  // The newest trace a query returns, or the number of traces if there is none.
  function NewestUnit(traces: seq<Trace>, input: WakeInput): (i: nat)
    ensures i <= |traces|
    ensures i < |traces| ==> SameUnit(traces[i], input)
    ensures i == |traces| ==> forall j | 0 <= j < |traces| :: !SameUnit(traces[j], input)
  {
    if traces == [] then 0
    else if SameUnit(traces[|traces| - 1], input) then |traces| - 1
    else
      var i := NewestUnit(traces[..|traces| - 1], input);
      if i == |traces| - 1 then |traces| else i
  }

  function FirstKey(traces: seq<Trace>, input: WakeInput): (i: nat)
    ensures i <= |traces|
    ensures i < |traces| ==> SameKey(traces[i], input)
    ensures i == |traces| ==> forall j | 0 <= j < |traces| :: !SameKey(traces[j], input)
  {
    if traces == [] || SameKey(traces[0], input) then 0 else 1 + FirstKey(traces[1..], input)
  }

  function Wake(db: Db, input: WakeInput): (Db, WakeResult) {
    if input.agent !in db.agents then (db, AgentNotFound)
    else
      var counted := db.(wakes := db.wakes + 1);
      var dup := FirstKey(db.traces, input);
      if dup < |db.traces| then (counted.(duplicates := db.duplicates + 1), Woken(dup, true))
      else
        var i := NewestUnit(db.traces, input);
        if i < |db.traces| then
          (counted.(traces := db.traces[i := db.traces[i].(coalesced := db.traces[i].coalesced + 1)]), Woken(i, true))
        else
          var t := Trace(input.agent, input.task, input.key, Queued, input.scheduledAt, input.failureRetryAttempt,
                         input.continuationAttempt, input.retryOf, 0, input.delayMs, NO_USAGE);
          (counted.(traces := db.traces + [t], stages := db.stages + [Idle]), Woken(|db.traces|, false))
  }

  // ---- claiming ----------------------------------------------------------------

  predicate Eligible(t: Trace, now: nat) {
    t.status == Queued && (t.scheduledAt.None? || t.scheduledAt.value <= now)
  }

  // ... WHERE eligible ORDER BY created_at LIMIT limit
  function Oldest(traces: seq<Trace>, now: nat, limit: nat): (ids: seq<nat>)
    ensures |ids| <= limit
    ensures forall k | 0 <= k < |ids| :: ids[k] < |traces| && Eligible(traces[ids[k]], now)
    ensures forall j, k | 0 <= j < k < |ids| :: ids[j] < ids[k]
    ensures forall i | 0 <= i < |traces| && Eligible(traces[i], now) && i !in ids ::
              |ids| == limit && forall k | 0 <= k < |ids| :: ids[k] < i
    decreases |traces|
  {
    if traces == [] then []
    else
      var n := |traces| - 1;
      var ids := Oldest(traces[..n], now, limit);
      if |ids| < limit && Eligible(traces[n], now) then ids + [n] else ids
  }

  function Claim(db: Db, now: nat, limit: nat): Db
    requires |db.stages| == |db.traces|
  {
    var ids := Oldest(db.traces, now, limit);
    db.(traces := seq(|db.traces|, i requires 0 <= i < |db.traces| =>
                        if i in ids then db.traces[i].(status := Running) else db.traces[i]),
        stages := seq(|db.stages|, i requires 0 <= i < |db.stages| => if i in ids then Claimed else db.stages[i]),
        claims := db.claims + ids)
  }

  // ---- task sync ---------------------------------------------------------------

  predicate BlankText(s: string) {
    Trim(s) == ""
  }

  // Appending a block drops one blank paragraph at the end.
  function WithBlock(blocks: seq<Block>, b: Block): seq<Block> {
    (if |blocks| > 0 && blocks[|blocks| - 1].Paragraph? && BlankText(blocks[|blocks| - 1].text)
     then blocks[..|blocks| - 1] else blocks) + [b]
  }

  // setTaskStatus: only from the given states.
  function SetStatus(t: Task, from: set<TaskStatus>, to: TaskStatus): Task {
    if t.status in from then t.(status := to) else t
  }

  function SyncStart(db: Db, task: Option<TaskId>): Db {
    if task.None? || task.value !in db.tasks then db
    else
      var t := db.tasks[task.value];
      if t.status != Todo then db
      else db.(tasks := db.tasks[task.value := SetStatus(t, {Todo}, InProgress).(errorCode := None)])
  }

  function SuccessTarget(reply: Reply): TaskStatus {
    if reply.delegates then InProgress else if reply.review then Review else Done
  }

  function SyncSucceeded(db: Db, trace: nat, task: Option<TaskId>, liveness: Option<Liveness>, reply: Reply): Db {
    if task.None? || (liveness.Some? && liveness.value != Normal) || reply.blank || task.value !in db.tasks then db
    else
      var t := db.tasks[task.value];
      var told := t.(blocks := WithBlock(t.blocks, AgentResult(trace, false)));
      db.(tasks := db.tasks[task.value := SetStatus(told, {Todo, InProgress}, SuccessTarget(reply))])
  }

  function SyncFailed(db: Db, trace: nat, task: Option<TaskId>, outcome: TraceStatus, errorCode: Option<string>): Db {
    if task.None? || task.value !in db.tasks || db.tasks[task.value].status == Done then db
    else
      var t := db.tasks[task.value];
      var told := t.(blocks := WithBlock(t.blocks, AgentResult(trace, true)));
      var parked :=
        if outcome == Failed || outcome == TimedOut then
          told.(status := Error,
                errorCode := Some(if errorCode.Some? then errorCode.value
                                  else if outcome == Failed then "trace_failed" else "trace_timed_out"))
        else told.(archived := true);
      db.(tasks := db.tasks[task.value := parked])
  }

  // ---- retry and continuation --------------------------------------------------

  datatype Reason = NonTransientError | MaxRetriesReached | NoDelayConfigured | NotNeeded | MaxAttemptsReached
                  | TaskMissing | TaskClosed | TaskNotAssigned | WakeFailed | CoalescedIntoExisting | Enqueued
  datatype Decision = Decision(enqueued: bool, exhausted: bool, reason: Reason)

  function AfterWake(r: WakeResult): Decision {
    match r
    case AgentNotFound => Decision(false, false, WakeFailed)
    case Woken(_, coalesced) => Decision(!coalesced, false, if coalesced then CoalescedIntoExisting else Enqueued)
  }

  function DecideRetry(db: Db, now: nat, trace: nat, task: Option<TaskId>, agent: AgentId,
                       errorCode: Option<string>, failureRetryAttempt: nat): (Db, Decision)
  {
    var nextAttempt := failureRetryAttempt + 1;
    if !IsTransientError(errorCode) then (db, Decision(false, true, NonTransientError))
    else if nextAttempt > MAX_RETRY_ATTEMPTS then (db, Decision(false, true, MaxRetriesReached))
    else match NextRetryDelayMs(failureRetryAttempt)
      case None => (db, Decision(false, true, NoDelayConfigured))
      case Some(delay) =>
        var w := Wake(db, WakeInput(agent, task, Some(RetryKey(trace, nextAttempt)), Some(now + delay),
                                    nextAttempt, 0, Some(trace), delay));
        (w.0, AfterWake(w.1))
  }

  function DecideContinuation(db: Db, trace: nat, task: TaskId, agent: AgentId, liveness: Liveness,
                              continuationAttempt: nat): (Db, Decision)
  {
    var nextAttempt := continuationAttempt + 1;
    if liveness == Normal then (db, Decision(false, false, NotNeeded))
    else if nextAttempt > MAX_CONTINUATION then (db, Decision(false, true, MaxAttemptsReached))
    else if task !in db.tasks then (db, Decision(false, true, TaskMissing))
    else if db.tasks[task].status in {Done, Review} then (db, Decision(false, true, TaskClosed))
    else if db.tasks[task].assignee != Some(agent) then (db, Decision(false, true, TaskNotAssigned))
    else
      var w := Wake(db, WakeInput(agent, Some(task), Some(ContinuationKey(task, trace, liveness, nextAttempt)), None,
                                  0, nextAttempt, Some(trace), 0));
      (w.0, AfterWake(w.1))
  }

  // ---- the stages of executing a claimed trace ---------------------------------

  function FinalStatus(run: Run): TraceStatus {
    match run case Ran(outcome, _, _, _, _) => outcome case _ => Failed
  }

  predicate LegalRun(run: Run) {
    run.Ran? ==> run.outcome in {Succeeded, Failed, Cancelled, TimedOut}
  }

  function UsageOf(run: Run): Usage {
    if run.Ran? && run.usage.Some? then run.usage.value else NO_USAGE
  }

  function TotalOf(db: Db, agent: AgentId): Usage {
    if agent in db.totals then db.totals[agent] else NO_USAGE
  }

  // finalizeTrace, and for a run of the adapter updateRuntimeCounters.
  function Finalize(db: Db, i: nat, run: Run): Db
    requires i < |db.traces| && |db.stages| == |db.traces|
  {
    var t := db.traces[i];
    var f := db.(traces := db.traces[i := t.(status := FinalStatus(run), usage := UsageOf(run))],
                 stages := db.stages[i := if run.Ran? then Finalized(run) else Over(run)]);
    if run.Ran? then f.(totals := db.totals[t.agent := AddUsage(TotalOf(db, t.agent), UsageOf(run))]) else f
  }

  function Sync(db: Db, i: nat): Db
    requires i < |db.traces| && |db.stages| == |db.traces| && db.stages[i].Finalized?
  {
    var run := db.stages[i].run;
    var d := if run.Ran? && run.outcome == Succeeded
             then SyncSucceeded(db, i, db.traces[i].task, run.liveness, run.reply) else db;
    d.(stages := db.stages[i := Synced(run)])
  }

  function Decide(db: Db, i: nat, now: nat): Db
    requires i < |db.traces| && |db.stages| == |db.traces| && db.stages[i].Synced?
  {
    var t, run := db.traces[i], db.stages[i].run;
    if run.Ran? && run.outcome == Succeeded && t.task.Some? && run.liveness.Some? && run.liveness.value != Normal then
      var d := DecideContinuation(db, i, t.task.value, t.agent, run.liveness.value, t.continuationAttempt);
      Advance(d.0, i, Decided(run, false))
    else if run.Ran? && run.outcome == Failed then
      var d := DecideRetry(db, now, i, t.task, t.agent, run.errorCode, t.failureRetryAttempt);
      Advance(d.0, i, Decided(run, d.1.enqueued))
    else Advance(db, i, Decided(run, false))
  }

  function Advance(db: Db, i: nat, stage: Stage): Db {
    if i < |db.stages| then db.(stages := db.stages[i := stage]) else db
  }

  function Settle(db: Db, i: nat): Db
    requires i < |db.traces| && |db.stages| == |db.traces| && db.stages[i].Decided?
  {
    var t, run := db.traces[i], db.stages[i].run;
    var d := if run.Ran? && run.outcome in {Failed, TimedOut, Cancelled} && !db.stages[i].enqueued
             then SyncFailed(db, i, t.task, run.outcome, run.errorCode) else db;
    d.(stages := db.stages[i := Over(run)])
  }

  // ---- steps -------------------------------------------------------------------

  datatype Step =
    | WakeFrom(input: WakeInput)            // the scheduler or the server wakes an agent
    | Tick(now: nat, limit: nat)            // one dispatcher tick claims a batch
    | Start(i: nat)
    | Finish(i: nat, run: Run)
    | SyncTask(i: nat)
    | DecideNext(i: nat, now: nat)
    | SettleTask(i: nat)

  ghost predicate Enabled(db: Db, s: Step) {
    && |db.stages| == |db.traces|
    && match s
       case WakeFrom(input) => input.failureRetryAttempt == 0 && input.continuationAttempt == 0 && input.retryOf.None?
       case Tick(_, _) => true
       case Start(i) => i < |db.traces| && db.stages[i].Claimed?
       case Finish(i, run) => i < |db.traces| && LegalRun(run)
                              && ((db.stages[i].Started? && !run.Unresolvable?) || (db.stages[i].Claimed? && !run.Ran?))
       case SyncTask(i) => i < |db.traces| && db.stages[i].Finalized?
       case DecideNext(i, _) => i < |db.traces| && db.stages[i].Synced?
       case SettleTask(i) => i < |db.traces| && db.stages[i].Decided?
  }

  ghost function Next(db: Db, s: Step): Db
    requires Enabled(db, s)
  {
    match s
    case WakeFrom(input) => Wake(db, input).0
    case Tick(now, limit) => Claim(db, now, limit)
    case Start(i) => SyncStart(db, db.traces[i].task).(stages := db.stages[i := Started])
    case Finish(i, run) => Finalize(db, i, run)
    case SyncTask(i) => Sync(db, i)
    case DecideNext(i, now) => Decide(db, i, now)
    case SettleTask(i) => Settle(db, i)
  }

  function Empty(agents: set<AgentId>, tasks: map<TaskId, Task>): Db {
    Db(agents, [], [], tasks, map[], 0, 0, [])
  }

  ghost function Execute(db: Db, steps: seq<Step>): Db
    decreases |steps|
  {
    if steps == [] then db
    else
      var d := Execute(db, steps[..|steps| - 1]);
      if Enabled(d, steps[|steps| - 1]) then Next(d, steps[|steps| - 1]) else d
  }
}
