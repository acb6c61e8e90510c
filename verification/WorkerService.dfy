/** The worker's operations on its tables, one after the other as `executeClaim` calls them. */
module WorkerService {
  import opened Text
  import opened RetryPolicy
  import opened WorkerState
  import opened WorkerRuns
  import opened WorkerLaws

  // The steps of one execution.
  function Plan(i: nat, run: Run, now: nat): seq<Step> {
    if run.Unresolvable? then [Finish(i, run)]
    else if run.Crashed? then [Start(i), Finish(i, run)]
    else [Start(i), Finish(i, run)] + Tail(i, now)
  }

  function Tail(i: nat, now: nat): seq<Step> {
    [SyncTask(i), DecideNext(i, now), SettleTask(i)]
  }

  lemma {:induction false} ExecuteFrom(db: Db, s: Step, rest: seq<Step>)
    ensures Execute(db, [s] + rest) == Execute(if Enabled(db, s) then Next(db, s) else db, rest)
    decreases |rest|
  {
    hide Enabled, Next;
    if rest == [] {
      assert ([s] + rest)[..0] == [];
    } else {
      assert ([s] + rest)[..|rest|] == [s] + rest[..|rest| - 1];
      ExecuteFrom(db, s, rest[..|rest| - 1]);
    }
  }

  lemma SyncFailedNoTask(db: Db, i: nat, outcome: TraceStatus, errorCode: Option<string>)
    ensures SyncFailed(db, i, None, outcome, errorCode) == db
  {
  }

  lemma SyncKeepsTraces(db: Db, i: nat)
    requires i < |db.traces| == |db.stages| && db.stages[i].Finalized?
    ensures Sync(db, i).traces == db.traces && Sync(db, i).stages == db.stages[i := Synced(db.stages[i].run)]
  {
  }

  lemma ExecuteNone(db: Db)
    ensures Execute(db, []) == db
  {
  }

  // Started and finalized.
  ghost function AfterFinish(db: Db, i: nat, run: Run): Db
    requires i < |db.traces| == |db.stages|
  {
    var d := SyncStart(db, db.traces[i].task).(stages := db.stages[i := Started]);
    if run.Unresolvable? then Finalize(db, i, run) else Finalize(d, i, run)
  }

  lemma DecideDecides(db: Db, i: nat, now: nat)
    requires Enabled(db, DecideNext(i, now))
    ensures var e := Decide(db, i, now);
            i < |e.traces| == |e.stages| && e.stages[i].Decided? && e.stages[i].run == db.stages[i].run
  {
    forall input ensures var d := Wake(db, input).0; |db.traces| <= |d.traces| == |d.stages| {
      WakeGrows(db, input);
    }
    hide Wake;
  }

  // One more step of a run whose first steps are known.
  lemma ExecuteNext(db: Db, s: Step, d: Db, rest: seq<Step>)
    requires Inv(db) && Enabled(db, s) && Next(db, s) == d
    ensures Inv(d) && Execute(db, [s] + rest) == Execute(d, rest)
  {
    hide Enabled, Next, Inv, Execute;
    NextKeeps(db, s);
    ExecuteFrom(db, s, rest);
  }

  lemma FinishStages(db: Db, i: nat, run: Run, rest: seq<Step>)
    requires Inv(db) && i < |db.traces| && db.stages[i].Claimed? && LegalRun(run)
    ensures var d := AfterFinish(db, i, run);
            && i < |d.traces| == |d.stages|
            && d.traces == db.traces[i := db.traces[i].(status := FinalStatus(run), usage := UsageOf(run))]
            && d.stages[i] == if run.Ran? then Finalized(run) else Over(run)
    ensures var d, first := AfterFinish(db, i, run), if run.Unresolvable? then [] else [Start(i)];
            Inv(d) && Execute(db, first + ([Finish(i, run)] + rest)) == Execute(d, rest)
  {
    var first: seq<Step> := if run.Unresolvable? then [] else [Start(i)];
    var d := AfterFinish(db, i, run);
    var d1 := BeforeFinish(db, i, run);
    hide Inv, Enabled, Next, AfterFinish, Execute;
    ExecuteNext(d1, Finish(i, run), d, rest);
    if run.Unresolvable? {
      assert first + ([Finish(i, run)] + rest) == [Finish(i, run)] + rest;
    } else {
      ExecuteNext(db, Start(i), d1, [Finish(i, run)] + rest);
    }
  }

  // A trace whose agent cannot be resolved is finalized without having started.
  lemma BeforeFinish(db: Db, i: nat, run: Run) returns (d: Db)
    requires Inv(db) && i < |db.traces| && db.stages[i].Claimed? && LegalRun(run)
    ensures if run.Unresolvable? then d == db else Enabled(db, Start(i)) && Next(db, Start(i)) == d
    ensures Inv(d) && Enabled(d, Finish(i, run)) && Next(d, Finish(i, run)) == AfterFinish(db, i, run)
  {
    assert |db.traces| == |db.stages|;
    hide Inv, SyncStart, Finalize;
    d := db;
    if !run.Unresolvable? {
      assert Enabled(db, Start(i));
      NextKeeps(db, Start(i));
      d := Next(db, Start(i));
    }
  }

  lemma PlanEndsEarly(db: Db, i: nat, run: Run, now: nat)
    requires Inv(db) && i < |db.traces| && db.stages[i].Claimed? && LegalRun(run) && !run.Ran?
    ensures var d := AfterFinish(db, i, run); Execute(db, Plan(i, run, now)) == d && Inv(d)
  {
    FinishStages(db, i, run, []);
    ExecuteNone(AfterFinish(db, i, run));
    hide Inv, AfterFinish, Execute;
    var first: seq<Step> := if run.Unresolvable? then [] else [Start(i)];
    assert Plan(i, run, now) == first + ([Finish(i, run)] + []);
  }

  lemma Aligned(db: Db)
    requires Inv(db)
    ensures |db.traces| == |db.stages|
  {
  }

  lemma PlanRuns(db: Db, i: nat, run: Run, now: nat)
    requires Inv(db) && i < |db.traces| && db.stages[i].Claimed? && LegalRun(run) && run.Ran?
    ensures Execute(db, Plan(i, run, now)) == Execute(AfterFinish(db, i, run), Tail(i, now))
  {
    Aligned(db);
    hide Inv, AfterFinish, Execute, Tail;
    FinishStages(db, i, run, Tail(i, now));
    assert Plan(i, run, now) == [Start(i)] + ([Finish(i, run)] + Tail(i, now));
  }

  lemma TailRuns(d: Db, i: nat, run: Run, now: nat)
    requires Inv(d) && i < |d.traces| == |d.stages| && d.stages[i] == Finalized(run)
    ensures var e := Decide(Sync(d, i), i, now);
            && i < |e.traces| == |e.stages| && e.stages[i].Decided? && e.stages[i].run == run
            && Execute(d, Tail(i, now)) == Settle(e, i) && Inv(Settle(e, i))
  {
    var s1, s2, s3 := SyncTask(i), DecideNext(i, now), SettleTask(i);
    var d2 := Sync(d, i);
    SyncKeepsTraces(d, i);
    hide Inv, Sync, Settle, Execute;
    assert Enabled(d, s1) && Next(d, s1) == d2;
    DecideDecides(d2, i, now);
    hide Decide;
    var d3 := Decide(d2, i, now);
    assert Enabled(d2, s2) && Next(d2, s2) == d3;
    var d4 := Settle(d3, i);
    assert Enabled(d3, s3) && Next(d3, s3) == d4;
    assert Tail(i, now) == [s1] + ([s2] + ([s3] + []));
    hide Enabled, Next, Tail;
    ExecuteNext(d, s1, d2, [s2] + ([s3] + []));
    ExecuteNext(d2, s2, d3, [s3] + []);
    ExecuteNext(d3, s3, d4, []);
    ExecuteNone(d4);
  }

  class Worker {
    var agents: set<AgentId>
    var traces: seq<Trace>
    var tasks: map<TaskId, Task>
    var totals: map<AgentId, Usage>

    // History: where each execution stands, and what the wakes and claims so far were.
    ghost var stages: seq<Stage>
    ghost var wakes: nat
    ghost var duplicates: nat
    ghost var claims: seq<nat>

    ghost function View(): Db
      reads this
    {
      Db(agents, traces, stages, tasks, totals, wakes, duplicates, claims)
    }

    ghost predicate Valid()
      reads this
    {
      Inv(View())
    }

    constructor (agents: set<AgentId>, tasks: map<TaskId, Task>)
      ensures Valid() && View() == Empty(agents, tasks)
    {
      this.agents, this.tasks, traces, totals := agents, tasks, [], map[];
      stages, wakes, duplicates, claims := [], 0, 0, [];
      new;
      ExecuteKeeps(agents, tasks, []);
    }

    // ---- wakeup ----------------------------------------------------------------

    method Wakeup(input: WakeInput) returns (r: WakeResult)
      modifies this
      ensures (View(), r) == Wake(old(View()), input)
    {
      if input.agent !in agents {
        return AgentNotFound;
      }
      wakes := wakes + 1;
      if input.key.Some? {
        var dup := FirstKey(traces, input);
        if dup < |traces| {
          duplicates := duplicates + 1;
          return Woken(dup, true);
        }
      }
      var active := NewestUnit(traces, input);
      if active < |traces| {
        traces := traces[active := traces[active].(coalesced := traces[active].coalesced + 1)];
        return Woken(active, true);
      }
      r := Woken(|traces|, false);
      traces := traces + [Trace(input.agent, input.task, input.key, Queued, input.scheduledAt, input.failureRetryAttempt,
                                input.continuationAttempt, input.retryOf, 0, input.delayMs, NO_USAGE)];
      stages := stages + [Idle];
    }

    // ---- claimTraces -----------------------------------------------------------

    method ClaimTraces(now: nat, limit: nat) returns (ids: seq<nat>)
      requires Valid()
      modifies this
      ensures Valid() && View() == Claim(old(View()), now, limit) && ids == Oldest(old(traces), now, limit)
    {
      ghost var claimed := Claim(View(), now, limit);
      ClaimKeeps(View(), now, limit);
      hide Inv, Oldest;
      ids := Oldest(traces, now, limit);
      stages := claimed.stages;
      claims := claims + ids;
      traces := seq(|traces|, i requires 0 <= i < |traces| reads this =>
                      if i in ids then traces[i].(status := Running) else traces[i]);
      assert traces == claimed.traces;
      hide *;
    }

    // ---- retry and continuation ------------------------------------------------

    method DecideRetryOnFailure(trace: nat, task: Option<TaskId>, agent: AgentId, errorCode: Option<string>,
                                failureRetryAttempt: nat, now: nat) returns (r: Decision)
      modifies this
      ensures (View(), r) == DecideRetry(old(View()), now, trace, task, agent, errorCode, failureRetryAttempt)
    {
      if !IsTransientError(errorCode) {
        return Decision(false, true, NonTransientError);
      }
      var nextAttempt := failureRetryAttempt + 1;
      if nextAttempt > MAX_RETRY_ATTEMPTS {
        return Decision(false, true, MaxRetriesReached);
      }
      var delay := NextRetryDelayMs(failureRetryAttempt);
      if delay.None? {
        return Decision(false, true, NoDelayConfigured);
      }
      var w := Wakeup(WakeInput(agent, task, Some(RetryKey(trace, nextAttempt)), Some(now + delay.value),
                                nextAttempt, 0, Some(trace), delay.value));
      r := AfterWake(w);
    }

    method DecideTraceContinuation(trace: nat, task: TaskId, agent: AgentId, liveness: Liveness,
                                   continuationAttempt: nat) returns (r: Decision)
      modifies this
      ensures (View(), r) == DecideContinuation(old(View()), trace, task, agent, liveness, continuationAttempt)
    {
      if liveness == Normal {
        return Decision(false, false, NotNeeded);
      }
      var nextAttempt := continuationAttempt + 1;
      if nextAttempt > MAX_CONTINUATION {
        return Decision(false, true, MaxAttemptsReached);
      }
      if task !in tasks {
        return Decision(false, true, TaskMissing);
      }
      if tasks[task].status == Done || tasks[task].status == Review {
        return Decision(false, true, TaskClosed);
      }
      if tasks[task].assignee != Some(agent) {
        return Decision(false, true, TaskNotAssigned);
      }
      var w := Wakeup(WakeInput(agent, Some(task), Some(ContinuationKey(task, trace, liveness, nextAttempt)), None,
                                0, nextAttempt, Some(trace), 0));
      r := AfterWake(w);
    }

    // ---- task sync -------------------------------------------------------------

    method SetTaskStatus(task: TaskId, from: set<TaskStatus>, to: TaskStatus)
      requires task in tasks
      modifies this`tasks
      ensures tasks == old(tasks)[task := SetStatus(old(tasks[task]), from, to)]
    {
      if tasks[task].status in from {
        tasks := tasks[task := tasks[task].(status := to)];
      }
    }

    method AppendBlock(task: TaskId, b: Block)
      requires task in tasks
      modifies this`tasks
      ensures tasks == old(tasks)[task := old(tasks[task]).(blocks := WithBlock(old(tasks[task]).blocks, b))]
    {
      var blocks := tasks[task].blocks;
      if |blocks| > 0 && blocks[|blocks| - 1].Paragraph? && BlankText(blocks[|blocks| - 1].text) {
        blocks := blocks[..|blocks| - 1];
      }
      tasks := tasks[task := tasks[task].(blocks := blocks + [b])];
    }

    method SyncTaskOnTraceStart(task: Option<TaskId>)
      modifies this`tasks
      ensures View() == SyncStart(old(View()), task)
    {
      if task.Some? && task.value in tasks && tasks[task.value].status == Todo {
        SetTaskStatus(task.value, {Todo}, InProgress);
        tasks := tasks[task.value := tasks[task.value].(errorCode := None)];
      }
    }

    method SyncTaskOnTraceSucceeded(trace: nat, task: Option<TaskId>, liveness: Option<Liveness>, reply: Reply)
      modifies this`tasks
      ensures View() == SyncSucceeded(old(View()), trace, task, liveness, reply)
    {
      if task.None? || (liveness.Some? && liveness.value != Normal) || reply.blank {
        return;
      }
      var target := if reply.delegates then InProgress else if reply.review then Review else Done;
      if task.value !in tasks {
        return;
      }
      AppendBlock(task.value, AgentResult(trace, false));
      SetTaskStatus(task.value, {Todo, InProgress}, target);
    }

    method SyncTaskOnTraceFailed(trace: nat, task: Option<TaskId>, outcome: TraceStatus, errorCode: Option<string>)
      modifies this`tasks
      ensures View() == SyncFailed(old(View()), trace, task, outcome, errorCode)
    {
      if task.None? || task.value !in tasks || tasks[task.value].status == Done {
        return;
      }
      AppendBlock(task.value, AgentResult(trace, true));
      var t := tasks[task.value];
      if outcome == Failed || outcome == TimedOut {
        var default := if outcome == Failed then "trace_failed" else "trace_timed_out";
        var code := if errorCode.Some? then errorCode.value else default;
        tasks := tasks[task.value := t.(status := Error, errorCode := Some(code))];
      } else {
        tasks := tasks[task.value := t.(archived := true)];
      }
    }

    // ---- executing one claimed trace -------------------------------------------

    method FinalizeTrace(i: nat, status: TraceStatus, usage: Option<Usage>)
      requires i < |traces|
      modifies this`traces
      ensures traces == old(traces)[i := old(traces[i]).(status := status, usage := if usage.Some? then usage.value else NO_USAGE)]
    {
      traces := traces[i := traces[i].(status := status, usage := if usage.Some? then usage.value else NO_USAGE)];
    }

    method UpdateRuntimeCounters(agent: AgentId, usage: Option<Usage>)
      modifies this`totals
      ensures totals == old(totals)[agent := AddUsage(TotalOf(old(View()), agent),
                                                      if usage.Some? then usage.value else NO_USAGE)]
    {
      var u := if usage.Some? then usage.value else NO_USAGE;
      if agent in totals {
        totals := totals[agent := AddUsage(totals[agent], u)];
      } else {
        totals := totals[agent := u];
      }
    }

    method BeginAndFinish(i: nat, trace: Trace, run: Run)
      requires |stages| == |traces| && i < |traces| && stages[i].Claimed? && run.Ran? && trace == traces[i]
      modifies this
      ensures View() == AfterFinish(old(View()), i, run)
    {
      ghost var db := View();
      SyncTaskOnTraceStart(trace.task);
      FinalizeTrace(i, run.outcome, run.usage);
      UpdateRuntimeCounters(trace.agent, run.usage);
      stages := stages[i := Started][i := Finalized(run)];
      hide SyncStart;
    }

    // Without an adapter call: nothing to resolve, or an exception on the way there.
    method GiveUp(i: nat, run: Run)
      requires |stages| == |traces| && i < |traces| && stages[i].Claimed? && !run.Ran?
      modifies this
      ensures View() == AfterFinish(old(View()), i, run)
    {
      ghost var db := View();
      if run.Crashed? {
        SyncTaskOnTraceStart(traces[i].task);
      }
      FinalizeTrace(i, Failed, None);
      stages := if run.Crashed? then stages[i := Started][i := Over(run)] else stages[i := Over(run)];
      hide SyncStart;
    }

    method AdvanceTask(i: nat, trace: Trace, run: Run)
      requires |stages| == |traces| && i < |traces| && stages[i] == Finalized(run) && trace.task == traces[i].task
      requires run.Ran?
      modifies this
      ensures View() == Sync(old(View()), i)
    {
      hide SyncSucceeded;
      if run.outcome == Succeeded {
        SyncTaskOnTraceSucceeded(i, trace.task, run.liveness, run.reply);
      }
      stages := stages[i := Synced(run)];
    }

    method FollowUp(i: nat, trace: Trace, run: Run, now: nat) returns (retryEnqueued: bool)
      requires |stages| == |traces| && i < |traces| && stages[i] == Synced(run) && run.Ran?
      requires trace.agent == traces[i].agent && trace.task == traces[i].task
      requires trace.failureRetryAttempt == traces[i].failureRetryAttempt
      requires trace.continuationAttempt == traces[i].continuationAttempt
      modifies this
      ensures View() == Decide(old(View()), i, now)
      ensures i < |stages| == |traces| && stages[i] == Decided(run, retryEnqueued) && traces[i].task == trace.task
    {
      ghost var d := View();
      DecideDecides(d, i, now);
      hide DecideRetry, DecideContinuation;
      if trace.task.Some? && run.outcome == Succeeded && run.liveness.Some? && run.liveness.value != Normal {
        var _ := DecideTraceContinuation(i, trace.task.value, trace.agent, run.liveness.value, trace.continuationAttempt);
      }
      retryEnqueued := false;
      if run.outcome == Failed {
        var decision := DecideRetryOnFailure(i, trace.task, trace.agent, run.errorCode, trace.failureRetryAttempt, now);
        retryEnqueued := decision.enqueued;
      }
      stages := Advance(View(), i, Decided(run, retryEnqueued)).stages;
    }

    method CloseTask(i: nat, trace: Trace, run: Run, retryEnqueued: bool)
      requires |stages| == |traces| && i < |traces| && stages[i] == Decided(run, retryEnqueued) && run.Ran?
      requires trace.task == traces[i].task
      modifies this
      ensures View() == Settle(old(View()), i)
    {
      hide SyncFailed;
      if trace.task.Some? && (run.outcome == Failed || run.outcome == TimedOut || run.outcome == Cancelled) && !retryEnqueued {
        SyncTaskOnTraceFailed(i, trace.task, run.outcome, run.errorCode);
      } else {
        assert trace.task.None? ==> SyncFailed(View(), i, trace.task, run.outcome, run.errorCode) == View() by { SyncFailedNoTask(View(), i, run.outcome, run.errorCode); }
      }
      stages := stages[i := Over(run)];
    }

    /** One claimed trace, start to end, is the run of its own steps; `run` is what the adapter did. */
    method ExecuteClaim(i: nat, run: Run, now: nat)
      requires Valid() && i < |traces| && stages[i].Claimed? && LegalRun(run)
      modifies this
      ensures Valid() && View() == Execute(old(View()), Plan(i, run, now))
      ensures i < |traces| && stages[i] == Over(run)
    {
      ghost var db := View();
      assert |stages| == |traces|;
      FinishStages(db, i, run, []);
      hide Inv, Execute, Plan, Tail, AfterFinish, Sync, Decide, Settle;
      if !run.Ran? {
        PlanEndsEarly(db, i, run, now);
        GiveUp(i, run);
        return;
      }
      PlanRuns(db, i, run, now);
      var trace := traces[i];
      BeginAndFinish(i, trace, run);
      ghost var d := View();
      TailRuns(d, i, run, now);
      AdvanceTask(i, trace, run);
      SyncKeepsTraces(d, i);
      var retryEnqueued := FollowUp(i, trace, run, now);
      CloseTask(i, trace, run, retryEnqueued);
    }
  }
}
