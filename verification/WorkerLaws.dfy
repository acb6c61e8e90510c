/** The worker's promises, for every run of its steps from an empty trace table. */
module WorkerLaws {
  import opened Text
  import opened RetryPolicy
  import opened WorkerState
  import opened WorkerRuns

  /** No two queued or running traces of one agent cover the same work unit. */
  lemma UnitsAreExclusive(agents: set<AgentId>, tasks: map<TaskId, Task>, steps: seq<Step>)
    ensures OneActivePerUnit(Execute(Empty(agents, tasks), steps))
  {
    ExecuteKeeps(agents, tasks, steps);
  }

  /** No trace is ever claimed twice, and a trace leaves the queue only by being claimed. */
  lemma ExecutedAtMostOnce(agents: set<AgentId>, tasks: map<TaskId, Task>, steps: seq<Step>)
    ensures var d := Execute(Empty(agents, tasks), steps);
            && |d.stages| == |d.traces|
            && (forall j, k | 0 <= j < k < |d.claims| :: d.claims[j] != d.claims[k])
            && (forall i | 0 <= i < |d.traces| :: i in d.claims <==> d.traces[i].status != Queued)
  {
    ExecuteKeeps(agents, tasks, steps);
    var d := Execute(Empty(agents, tasks), steps);
    hide Execute, AccountsOk, LineageOk, OneActivePerUnit, OneFollowUp;
    forall i | 0 <= i < |d.traces| ensures i in d.claims <==> d.traces[i].status != Queued {
      assert StageOk(d, i);
    }
  }

  /** Every wake is a trace, a coalesced wake or a duplicate; every agent's totals are those of its executed traces. */
  lemma WakesAndTokensAddUp(agents: set<AgentId>, tasks: map<TaskId, Task>, steps: seq<Step>, agent: AgentId)
    ensures var d := Execute(Empty(agents, tasks), steps);
            && d.wakes == |d.traces| + SumCoalesced(d.traces) + d.duplicates
            && TotalOf(d, agent) == SumUsage(d.traces, agent)
  {
    ExecuteKeeps(agents, tasks, steps);
  }

  /** Retries stay within 3 and continuations within 2, never both; a trace has at most one follow-up. */
  lemma AttemptsAreBounded(agents: set<AgentId>, tasks: map<TaskId, Task>, steps: seq<Step>)
    ensures var d := Execute(Empty(agents, tasks), steps);
            && (forall i | 0 <= i < |d.traces| ::
                  && d.traces[i].failureRetryAttempt <= MAX_RETRY_ATTEMPTS
                  && d.traces[i].continuationAttempt <= MAX_CONTINUATION
                  && (d.traces[i].failureRetryAttempt == 0 || d.traces[i].continuationAttempt == 0))
            && OneFollowUp(d)
  {
    ExecuteKeeps(agents, tasks, steps);
    var d := Execute(Empty(agents, tasks), steps);
    forall i | 0 <= i < |d.traces|
      ensures && d.traces[i].failureRetryAttempt <= MAX_RETRY_ATTEMPTS
              && d.traces[i].continuationAttempt <= MAX_CONTINUATION
              && (d.traces[i].failureRetryAttempt == 0 || d.traces[i].continuationAttempt == 0)
    {
      assert LineageOk(d, i);
    }
  }

  // ---- follow-up chains --------------------------------------------------------

  // Each trace of the chain follows up the one before it.
  ghost predicate Chain(db: Db, c: seq<nat>) {
    && (forall k | 0 <= k < |c| :: c[k] < |db.traces|)
    && (forall k | 0 < k < |c| :: db.traces[c[k]].retryOf == Some(c[k - 1]))
  }

  function DelaySum(db: Db, c: seq<nat>): nat
    requires forall k | 0 <= k < |c| :: c[k] < |db.traces|
  {
    if |c| <= 1 then 0 else DelaySum(db, c[..|c| - 1]) + db.traces[c[|c| - 1]].delayMs
  }

  lemma {:induction false} RetryStretch(db: Db, c: seq<nat>)
    requires Inv(db) && c != [] && Chain(db, c)
    requires forall k | 0 < k < |c| :: db.traces[c[k]].failureRetryAttempt > 0
    ensures db.traces[c[|c| - 1]].failureRetryAttempt == db.traces[c[0]].failureRetryAttempt + |c| - 1 <= 3
    ensures DelaySum(db, c) <= [0, 30_000, 150_000, 750_000][db.traces[c[|c| - 1]].failureRetryAttempt]
  {
    var last := c[|c| - 1];
    assert LineageOk(db, last);
    if |c| > 1 {
      var init := c[..|c| - 1];
      RetryStretch(db, init);
      assert db.traces[last].retryOf == Some(init[|init| - 1]);
    }
  }

  lemma {:induction false} ContinuationStretch(db: Db, c: seq<nat>)
    requires Inv(db) && c != [] && Chain(db, c)
    requires forall k | 0 < k < |c| :: db.traces[c[k]].continuationAttempt > 0
    ensures db.traces[c[|c| - 1]].continuationAttempt == db.traces[c[0]].continuationAttempt + |c| - 1 <= 2
  {
    var last := c[|c| - 1];
    assert LineageOk(db, last);
    if |c| > 1 {
      var init := c[..|c| - 1];
      ContinuationStretch(db, init);
      assert db.traces[last].retryOf == Some(init[|init| - 1]);
    }
  }

  /** In every run, unbroken retries number at most 3 and wait at most 750 s; unbroken continuations number at most 2. */
  lemma SameKindChainsAreShort(agents: set<AgentId>, tasks: map<TaskId, Task>, steps: seq<Step>, c: seq<nat>)
    requires c != [] && Chain(Execute(Empty(agents, tasks), steps), c)
    ensures var d := Execute(Empty(agents, tasks), steps);
            && ((forall k | 0 < k < |c| :: d.traces[c[k]].failureRetryAttempt > 0) ==> |c| <= 4 && DelaySum(d, c) <= 750_000)
            && ((forall k | 0 < k < |c| :: d.traces[c[k]].continuationAttempt > 0) ==> |c| <= 3)
  {
    ExecuteKeeps(agents, tasks, steps);
    var d := Execute(Empty(agents, tasks), steps);
    hide Execute, Inv, DelaySum;
    if forall k | 0 < k < |c| :: d.traces[c[k]].failureRetryAttempt > 0 {
      RetryStretch(d, c);
    }
    if forall k | 0 < k < |c| :: d.traces[c[k]].continuationAttempt > 0 {
      ContinuationStretch(d, c);
    }
  }

  // ---- the retry decision ------------------------------------------------------

  /** The worker says "exhausted" exactly when the server's classifier does, and never for want of a delay. */
  lemma ExhaustedAgreesWithServer(db: Db, now: nat, trace: nat, task: Option<TaskId>, agent: AgentId,
                                  errorCode: Option<string>, failureRetryAttempt: nat)
    ensures var d := DecideRetry(db, now, trace, task, agent, errorCode, failureRetryAttempt).1;
            && (d.exhausted <==> IsRetryExhausted(errorCode, failureRetryAttempt))
            && d.reason != NoDelayConfigured
            && (d.enqueued ==> !d.exhausted)
  {
    hide Wake;
  }

  // ---- tasks only move forward -------------------------------------------------

  function Rank(s: TaskStatus): nat {
    match s
    case Todo => 0
    case InProgress => 1
    case Blocked => 1
    case Review => 2
    case Done => 3
    case Error => 3
  }

  ghost predicate TaskMovesForward(a: Task, b: Task) {
    && Rank(a.status) <= Rank(b.status)
    && (Rank(a.status) == Rank(b.status) ==> a.status == b.status)
    && (a.status in {Done, Error} ==> b.status == a.status)
    && (a.archived ==> b.archived)
    && a.assignee == b.assignee
    && (forall trace, failure | AgentResult(trace, failure) in a.blocks :: AgentResult(trace, failure) in b.blocks)
  }

  ghost predicate TasksMoveForward(a: Db, b: Db) {
    a.tasks.Keys == b.tasks.Keys && forall t | t in a.tasks :: TaskMovesForward(a.tasks[t], b.tasks[t])
  }

  lemma WithBlockKeepsResults(blocks: seq<Block>, b: Block)
    ensures b in WithBlock(blocks, b)
    ensures forall x | x in blocks && x.AgentResult? :: x in WithBlock(blocks, b)
  {
    hide BlankText;
    var w := WithBlock(blocks, b);
    assert w[|w| - 1] == b;
    forall x | x in blocks && x.AgentResult? ensures x in w {
      var i :| 0 <= i < |blocks| && blocks[i] == x;
      assert w[i] == x;
    }
  }

  lemma WakeKeepsTasks(db: Db, input: WakeInput)
    ensures Wake(db, input).0.tasks == db.tasks
  {
  }

  /** No step of the worker moves a task backwards, and none leaves `done` or `error`. */
  lemma StepsMoveTasksForward(db: Db, s: Step)
    requires Enabled(db, s)
    ensures TasksMoveForward(db, Next(db, s))
  {
    hide WithBlock, Wake;
    match s {
      case WakeFrom(input) => WakeKeepsTasks(db, input);
      case SyncTask(i) =>
        var task := db.traces[i].task;
        if task.Some? && task.value in db.tasks {
          WithBlockKeepsResults(db.tasks[task.value].blocks, AgentResult(i, false));
        }
      case DecideNext(i, now) => DecideKeepsTasks(db, i, now);
      case SettleTask(i) =>
        var task := db.traces[i].task;
        if task.Some? && task.value in db.tasks {
          WithBlockKeepsResults(db.tasks[task.value].blocks, AgentResult(i, true));
        }
      case _ =>
    }
  }

  /**
   What a successful run does to its task: nothing after a nudge or a blank reply; otherwise its result is shown,
   and an open task ends in review or done exactly as the reply says, while delegating keeps it in progress.
   */
  lemma SuccessIsRecorded(db: Db, i: nat, task: TaskId)
    requires Enabled(db, SyncTask(i)) && db.stages[i].run.Ran? && db.stages[i].run.outcome == Succeeded
    requires db.traces[i].task == Some(task) && task in db.tasks
    ensures var run, before, after := db.stages[i].run, db.tasks[task], Next(db, SyncTask(i)).tasks[task];
            var silent := run.reply.blank || run.liveness in {Some(PlanOnly), Some(EmptyResponse)};
            && (silent ==> after == before)
            && (!silent ==> AgentResult(i, false) in after.blocks)
            && (!silent && before.status in {Todo, InProgress} ==>
                  && (after.status == InProgress <==> run.reply.delegates)
                  && (after.status == Review <==> run.reply.review && !run.reply.delegates)
                  && (after.status == Done <==> !run.reply.review && !run.reply.delegates))
            && (before.status !in {Todo, InProgress} ==> after.status == before.status)
            && forall other | other in db.tasks && other != task :: Next(db, SyncTask(i)).tasks[other] == db.tasks[other]
  {
    WithBlockKeepsResults(db.tasks[task].blocks, AgentResult(i, false));
    hide WithBlock;
  }

  lemma DecideKeepsTasks(db: Db, i: nat, now: nat)
    requires Enabled(db, DecideNext(i, now))
    ensures Decide(db, i, now).tasks == db.tasks
  {
    forall input ensures Wake(db, input).0.tasks == db.tasks {
      WakeKeepsTasks(db, input);
    }
    hide Wake;
  }

  lemma {:induction false} RunsMoveTasksForward(db: Db, steps: seq<Step>)
    ensures TasksMoveForward(db, Execute(db, steps))
    decreases |steps|
  {
    if steps != [] {
      var d := Execute(db, steps[..|steps| - 1]);
      RunsMoveTasksForward(db, steps[..|steps| - 1]);
      if Enabled(d, steps[|steps| - 1]) {
        hide Next;
        StepsMoveTasksForward(d, steps[|steps| - 1]);
      }
    }
  }

  // ---- a failure is never silent -----------------------------------------------

  // Trace i ended badly: a retry follows it, or its task shows the failure, or the task was done already.
  ghost predicate FailureIsVisible(db: Db, i: nat)
    requires i < |db.traces|
  {
    var task := db.traces[i].task;
    || (exists j :: 0 <= j < |db.traces| && db.traces[j].retryOf == Some(i))
    || task.None? || task.value !in db.tasks
    || db.tasks[task.value].status == Done
    || (AgentResult(i, true) in db.tasks[task.value].blocks
        && (db.tasks[task.value].status == Error || db.tasks[task.value].archived))
  }

  ghost predicate SettledOk(db: Db, i: nat)
    requires i < |db.traces| == |db.stages|
  {
    match db.stages[i]
    case Decided(_, enqueued) =>
      enqueued ==> exists j :: 0 <= j < |db.traces| && db.traces[j].retryOf == Some(i)
    case Over(run) => run.Ran? && run.outcome in {Failed, TimedOut, Cancelled} ==> FailureIsVisible(db, i)
    case _ => true
  }

  lemma GrowthKeepsVisible(db: Db, d: Db, i: nat)
    requires i < |db.traces| <= |d.traces| && TasksMoveForward(db, d)
    requires forall j | 0 <= j < |db.traces| :: d.traces[j].retryOf == db.traces[j].retryOf && d.traces[j].task == db.traces[j].task
    requires FailureIsVisible(db, i)
    ensures FailureIsVisible(d, i)
  {
    if j :| 0 <= j < |db.traces| && db.traces[j].retryOf == Some(i) {
      assert d.traces[j].retryOf == Some(i);
    } else if db.traces[i].task.Some? && db.traces[i].task.value in db.tasks {
      assert TaskMovesForward(db.tasks[db.traces[i].task.value], d.tasks[db.traces[i].task.value]);
    }
  }

  // What steps do to the parts of the table that settlement looks at.
  ghost predicate TableGrows(db: Db, d: Db) {
    && |db.traces| <= |d.traces| && |d.stages| == |d.traces|
    && (forall j | 0 <= j < |db.traces| :: d.traces[j].retryOf == db.traces[j].retryOf && d.traces[j].task == db.traces[j].task)
  }

  lemma WakeGrows(db: Db, input: WakeInput)
    requires |db.stages| == |db.traces|
    ensures var d := Wake(db, input).0;
            && TableGrows(db, d)
            && d.stages[..|db.stages|] == db.stages && (forall k | |db.stages| <= k < |d.stages| :: d.stages[k] == Idle)
            && (Wake(db, input).1.Woken? && !Wake(db, input).1.coalesced ==>
                  |d.traces| == |db.traces| + 1 && d.traces[|db.traces|].retryOf == input.retryOf)
  {
    hide FirstKey, NewestUnit;
  }

  lemma DecideGrows(db: Db, i: nat, now: nat)
    requires Enabled(db, DecideNext(i, now))
    ensures var d := Decide(db, i, now);
            && TableGrows(db, d) && SettledOk(d, i)
            && (forall k | 0 <= k < |db.stages| && k != i :: d.stages[k] == db.stages[k])
            && (forall k | |db.stages| <= k < |d.stages| :: d.stages[k] == Idle)
  {
    var t, run := db.traces[i], db.stages[i].run;
    hide Wake, SettledOk, DecideRetry, DecideContinuation;
    var d := Decide(db, i, now);
    if run.Ran? && run.outcome == Succeeded && t.task.Some? && run.liveness.Some? && run.liveness.value != Normal {
      var c := DecideContinuation(db, i, t.task.value, t.agent, run.liveness.value, t.continuationAttempt).0;
      ContinuationIsWake(db, i, t, t.task.value, run.liveness.value);
      DecisionGrows(db, c, i, Decided(run, false), WakeInput(t.agent, t.task,
        Some(ContinuationKey(t.task.value, i, run.liveness.value, t.continuationAttempt + 1)),
        None, 0, t.continuationAttempt + 1, Some(i), 0));
    } else if run.Ran? && run.outcome == Failed {
      var r := DecideRetry(db, now, i, t.task, t.agent, run.errorCode, t.failureRetryAttempt);
      var delay := if t.failureRetryAttempt < 3 then RETRY_DELAYS_MS[t.failureRetryAttempt] else 0;
      RetryIsWake(db, i, t, now, run.errorCode);
      DecisionGrows(db, r.0, i, Decided(run, r.1.enqueued), WakeInput(t.agent, t.task,
        Some(RetryKey(i, t.failureRetryAttempt + 1)), Some(now + delay), t.failureRetryAttempt + 1, 0, Some(i), delay));
    } else {
      RetrySettled(db, d, i, false, run);
    }
  }

  // Whether a decision wakes the agent, and for what.
  lemma RetryIsWake(db: Db, i: nat, t: Trace, now: nat, errorCode: Option<string>)
    ensures var r := DecideRetry(db, now, i, t.task, t.agent, errorCode, t.failureRetryAttempt);
            var delay := if t.failureRetryAttempt < 3 then RETRY_DELAYS_MS[t.failureRetryAttempt] else 0;
            var w := Wake(db, WakeInput(t.agent, t.task, Some(RetryKey(i, t.failureRetryAttempt + 1)), Some(now + delay),
                                        t.failureRetryAttempt + 1, 0, Some(i), delay));
            (r.0 == db && !r.1.enqueued) || (r.0 == w.0 && r.1 == AfterWake(w.1))
  {
    hide Wake;
  }

  lemma ContinuationIsWake(db: Db, i: nat, t: Trace, task: TaskId, liveness: Liveness)
    ensures var r := DecideContinuation(db, i, task, t.agent, liveness, t.continuationAttempt);
            var w := Wake(db, WakeInput(t.agent, Some(task), Some(ContinuationKey(task, i, liveness, t.continuationAttempt + 1)),
                                        None, 0, t.continuationAttempt + 1, Some(i), 0));
            r.0 == db || r.0 == w.0
  {
    hide Wake;
  }

  lemma DecisionGrows(db: Db, c: Db, i: nat, stage: Stage, input: WakeInput)
    requires i < |db.traces| == |db.stages| && stage.Decided? && input.retryOf == Some(i)
    requires var w := Wake(db, input);
             (c == db && !stage.enqueued) || (c == w.0 && (stage.enqueued ==> AfterWake(w.1).enqueued))
    ensures var d := Advance(c, i, stage);
            && TableGrows(db, d) && SettledOk(d, i)
            && (forall k | 0 <= k < |db.stages| && k != i :: d.stages[k] == db.stages[k])
            && (forall k | |db.stages| <= k < |d.stages| :: d.stages[k] == Idle)
  {
    WakeGrows(db, input);
    hide Wake;
    RetrySettled(db, Advance(c, i, stage), i, stage.enqueued, stage.run);
  }

  lemma RetrySettled(db: Db, d: Db, i: nat, enqueued: bool, run: Run)
    requires i < |d.traces| == |d.stages| && d.stages[i] == Decided(run, enqueued)
    requires enqueued ==> |d.traces| == |db.traces| + 1 && d.traces[|db.traces|].retryOf == Some(i)
    ensures SettledOk(d, i)
  {
  }

  lemma StepTable(db: Db, s: Step)
    requires Enabled(db, s) && (s.SettleTask? ==> Inv(db) && SettledOk(db, s.i))
    ensures var d := Next(db, s);
            && TableGrows(db, d)
            && forall k | 0 <= k < |d.stages| :: (k < |db.stages| && d.stages[k] == db.stages[k]) || SettledOk(d, k)
  {
    hide Inv, Oldest, WithBlock;
    match s {
      case WakeFrom(input) => WakeGrows(db, input); hide Wake;
      case DecideNext(i, now) => DecideGrows(db, i, now); hide Decide;
      case SettleTask(i) => SettleShows(db, i); hide Settle;
      case _ =>
    }
  }

  lemma StepKeepsSettled(db: Db, s: Step)
    requires Inv(db) && Enabled(db, s) && forall i | 0 <= i < |db.traces| :: SettledOk(db, i)
    ensures var d := Next(db, s);
            |d.stages| == |d.traces| && forall i | 0 <= i < |d.traces| :: SettledOk(d, i)
  {
    var d := Next(db, s);
    StepsMoveTasksForward(db, s);
    StepTable(db, s);
    hide Inv, Next;
    forall i | 0 <= i < |d.traces| ensures SettledOk(d, i) {
      if i < |db.traces| && d.stages[i] == db.stages[i] {
        assert SettledOk(db, i);
        if d.stages[i].Over? && d.stages[i].run.Ran? && d.stages[i].run.outcome in {Failed, TimedOut, Cancelled} {
          GrowthKeepsVisible(db, d, i);
        } else if d.stages[i].Decided? && d.stages[i].enqueued {
          var j :| 0 <= j < |db.traces| && db.traces[j].retryOf == Some(i);
          assert d.traces[j].retryOf == Some(i);
        }
      }
    }
  }

  // Settling a badly ended run leaves it visible.
  lemma SettleShows(db: Db, i: nat)
    requires Inv(db) && Enabled(db, SettleTask(i)) && SettledOk(db, i)
    ensures var d := Settle(db, i);
            && TableGrows(db, d) && SettledOk(d, i) && forall k | 0 <= k < |db.stages| && k != i :: d.stages[k] == db.stages[k]
  {
    assert StageOk(db, i);
    hide Inv, WithBlock;
    var d, run, task := Settle(db, i), db.stages[i].run, db.traces[i].task;
    if db.stages[i].enqueued {
      var j :| 0 <= j < |db.traces| && db.traces[j].retryOf == Some(i);
      assert d.traces[j].retryOf == Some(i);
    } else if task.Some? && task.value in db.tasks {
      WithBlockKeepsResults(db.tasks[task.value].blocks, AgentResult(i, true));
    }
  }

  lemma {:induction false} RunsKeepSettled(agents: set<AgentId>, tasks: map<TaskId, Task>, steps: seq<Step>)
    ensures var d := Execute(Empty(agents, tasks), steps);
            |d.stages| == |d.traces| && forall i | 0 <= i < |d.traces| :: SettledOk(d, i)
  {
    if steps != [] {
      RunsKeepSettled(agents, tasks, steps[..|steps| - 1]);
      ExecuteKeeps(agents, tasks, steps[..|steps| - 1]);
      var d := Execute(Empty(agents, tasks), steps[..|steps| - 1]);
      hide Inv, SettledOk, Next;
      if Enabled(d, steps[|steps| - 1]) {
        StepKeepsSettled(d, steps[|steps| - 1]);
      }
    }
  }

  /**
   In every run, a trace whose adapter call ended failed, timed out or cancelled has, once settled, a retry
   queued behind it, or its task carries its failure block and is in `error` or archived, or was done already.
   */
  lemma FailuresAreNeverSilent(agents: set<AgentId>, tasks: map<TaskId, Task>, steps: seq<Step>, i: nat)
    requires var d := Execute(Empty(agents, tasks), steps);
             && i < |d.traces| && i < |d.stages| && d.stages[i].Over? && d.stages[i].run.Ran?
             && d.traces[i].status in {Failed, TimedOut, Cancelled}
    ensures FailureIsVisible(Execute(Empty(agents, tasks), steps), i)
  {
    RunsKeepSettled(agents, tasks, steps);
    ExecuteKeeps(agents, tasks, steps);
    var d := Execute(Empty(agents, tasks), steps);
    assert SettledOk(d, i) && StageOk(d, i);
  }
}
